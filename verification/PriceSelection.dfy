/**
  Selection among the prices models.dev lists for a model (controller/ratio_sync.go): each provider may offer a
  price, near-equal prices tie within an epsilon, and one offer per model is kept. Floats are reals, with one
  value standing for the numbers that are not finite.
*/
module PriceSelection {
  import opened Common
  import opened SortedStrings

  datatype Float = Finite(v: real) | NotFinite

  datatype Cost = Cost(input: Option<Float>, output: Option<Float>, cacheRead: Option<Float>)

  datatype Candidate = Candidate(provider: string, input: real, output: Option<real>, cacheRead: Option<real>)

  /** Provider to model to cost. */
  type Prices = map<string, map<string, Cost>>

  predicate ValidCost(f: Float) {
    f.Finite? && f.v >= 0.0
  }

  /** An offer without a valid input price, with an invalid output price, or with a free input and a paid output
      is dropped; an invalid cache price is only left out. */
  function BuildCandidate(provider: string, cost: Cost): (c: Option<Candidate>)
    ensures c.Some? ==> c.value.provider == provider && c.value.input >= 0.0
  {
    if cost.input.None? || !ValidCost(cost.input.value) then None
    else if cost.output.Some? && !ValidCost(cost.output.value) then None
    else
      var input := cost.input.value.v;
      var output := if cost.output.Some? then Some(cost.output.value.v) else None;
      if input == 0.0 && output.Some? && output.value > 0.0 then None
      else
        var cache := if cost.cacheRead.Some? && ValidCost(cost.cacheRead.value) then Some(cost.cacheRead.value.v)
          else None;
        Some(Candidate(provider, input, output, cache))
  }

  /** The price of a candidate is one the cost lists: finite and not negative. */
  predicate Lists(listed: Option<Float>, price: real) {
    listed == Some(Finite(price)) && price >= 0.0
  }

  /** What a candidate says, in terms of the cost of its provider: the listed prices, an output price only if one is
      listed, a cache price only if a usable one is, and no free input with a paid output. */
  lemma CandidateIff(provider: string, cost: Cost, c: Candidate)
    ensures BuildCandidate(provider, cost) == Some(c) <==>
      && c.provider == provider && Lists(cost.input, c.input)
      && (if c.output.Some? then Lists(cost.output, c.output.value) else cost.output.None?)
      && (c.input == 0.0 && c.output.Some? ==> c.output.value == 0.0)
      && (c.cacheRead.Some? ==> Lists(cost.cacheRead, c.cacheRead.value))
      && (c.cacheRead.None? ==> forall price: real :: !Lists(cost.cacheRead, price))
  {
    if c.cacheRead.None? && cost.cacheRead.Some? && cost.cacheRead.value.Finite? {
      assert ValidCost(cost.cacheRead.value) <==> Lists(cost.cacheRead, cost.cacheRead.value.v);
    }
  }

  predicate ShouldReplace(current: Candidate, next: Candidate) {
    if (current.input > 0.0) != (next.input > 0.0) then next.input > 0.0
    else if next.input > 0.0 && !NearlyEqual(next.input, current.input) then next.input < current.input
    else Less(next.provider, current.provider)
  }

  /** The candidate kept after seeing `offers` in order. */
  function Choose(offers: seq<Candidate>): Option<Candidate> {
    if offers == [] then None
    else
      var before, next := Choose(offers[..|offers| - 1]), offers[|offers| - 1];
      if before.None? || ShouldReplace(before.value, next) then Some(next) else before
  }

  /** The valid offers for a model, in the given order of the providers. */
  function Offers(data: Prices, providers: seq<string>, model: string): (offers: seq<Candidate>)
    ensures forall c | c in offers :: c.provider in providers && c.input >= 0.0
  {
    if providers == [] then []
    else
      var before, p := Offers(data, providers[..|providers| - 1], model), providers[|providers| - 1];
      if p in data && model in data[p] && BuildCandidate(p, data[p][model]).Some? then
        before + [BuildCandidate(p, data[p][model]).value]
      else before
  }

  predicate ByProvider(offers: seq<Candidate>) {
    forall i, j | 0 <= i < j < |offers| :: Less(offers[i].provider, offers[j].provider)
  }

  /** `c` costs something, no offer costs `EPSILON` less, and no offer of an earlier provider is as cheap. */
  predicate Cheapest(c: Candidate, offers: seq<Candidate>) {
    && c.input > 0.0
    && forall d | d in offers && d.input > 0.0 ::
      c.input < d.input + EPSILON && (Less(d.provider, c.provider) ==> c.input < d.input)
  }

  /** In provider order the tolerance does not add up, however many near-ties are chained. */
  lemma {:induction false} ChoiceIsCheapest(offers: seq<Candidate>)
    requires offers != [] && ByProvider(offers) && forall c | c in offers :: c.input >= 0.0
    ensures Choose(offers).Some? && Choose(offers).value in offers
    ensures (exists d | d in offers :: d.input > 0.0) ==> Cheapest(Choose(offers).value, offers)
    ensures (forall d | d in offers :: d.input == 0.0) ==> Choose(offers).value == offers[0]
  {
    var before, next := offers[..|offers| - 1], offers[|offers| - 1];
    assert forall d :: d in offers <==> d in before || d == next;
    LessTotal(next.provider, next.provider);
    if before != [] {
      ChoiceIsCheapest(before);
      var c := Choose(before).value;
      LessTotal(next.provider, c.provider);
    }
  }

  lemma {:induction false} OffersByProvider(data: Prices, providers: seq<string>, model: string)
    requires Increasing(providers)
    ensures ByProvider(Offers(data, providers, model))
  {
    if providers != [] {
      var before := providers[..|providers| - 1];
      OffersByProvider(data, before, model);
      var offers := Offers(data, before, model);
      forall i | 0 <= i < |offers| ensures Less(offers[i].provider, providers[|providers| - 1]) {
        assert offers[i] in offers;
      }
    }
  }

  /** The valid offers for a model, by provider. */
  ghost function OffersFor(data: Prices, model: string): seq<Candidate> {
    Offers(data, Ordered(data.Keys), model)
  }

  lemma {:induction false} OffersMembers(data: Prices, providers: seq<string>, model: string)
    ensures forall c :: c in Offers(data, providers, model) <==>
      c.provider in providers && c.provider in data && model in data[c.provider] &&
        BuildCandidate(c.provider, data[c.provider][model]) == Some(c)
  {
    if providers != [] {
      var before, p := providers[..|providers| - 1], providers[|providers| - 1];
      assert providers == before + [p];
      OffersMembers(data, before, model);
    }
  }

  datatype Result = Selected(prices: map<string, Candidate>) | EmptyResponse | NoValidPrice

  function Kept(selected: map<string, Candidate>, model: string): Option<Candidate> {
    if model in selected then Some(selected[model]) else None
  }

  /** The kept candidate after one more provider. */
  function Take(kept: Option<Candidate>, provider: string, models: map<string, Cost>,
      model: string): Option<Candidate> {
    var next := if model in models then BuildCandidate(provider, models[model]) else None;
    if next.Some? && (kept.None? || ShouldReplace(kept.value, next.value)) then next else kept
  }

  lemma ChooseStep(data: Prices, providers: seq<string>, i: nat, model: string)
    requires i < |providers| && providers[i] in data
    ensures Choose(Offers(data, providers[..i + 1], model)) ==
      Take(Choose(Offers(data, providers[..i], model)), providers[i], data[providers[i]], model)
  {
    assert providers[..i + 1][..i] == providers[..i];
    var before, offers := Offers(data, providers[..i], model), Offers(data, providers[..i + 1], model);
    if offers != before {
      assert offers[..|offers| - 1] == before;
    }
  }

  /** The inner loop: the models of one provider. */
  method TakeProvider(selected: map<string, Candidate>, provider: string, models: map<string, Cost>)
    returns (r: map<string, Candidate>)
    ensures forall model :: Kept(r, model) == Take(Kept(selected, model), provider, models, model)
  {
    r := selected;
    var names := SortedKeys(models.Keys);
    forall i, j | 0 <= i < j < |names| ensures names[i] != names[j] {
      LessTotal(names[i], names[j]);
    }
    ghost var done: set<string> := {};
    for j := 0 to |names|
      invariant forall k | 0 <= k < |names| :: names[k] in done <==> k < j
      invariant forall model | model !in done :: Kept(r, model) == Kept(selected, model)
      invariant done <= models.Keys && forall model | model in done ::
        Kept(r, model) == Take(Kept(selected, model), provider, models, model)
    {
      var name := names[j];
      var candidate := BuildCandidate(provider, models[name]);
      if candidate.Some? && (name !in r || ShouldReplace(r[name], candidate.value)) {
        r := r[name := candidate.value];
      }
      done := done + {name};
    }
    assert forall model | model in models :: model in names;
  }

  /** The selection loop of `convertModelsDevToRatioData`. Maps yield their keys in any order; the result depends
      on the prices alone. */
  method SelectPrices(data: Prices) returns (r: Result)
    ensures r.EmptyResponse? <==> data == map[]
    ensures r.NoValidPrice? ==> forall model :: OffersFor(data, model) == []
    ensures r.Selected? ==> r.prices != map[] && forall model :: Kept(r.prices, model) == Choose(OffersFor(data, model))
  {
    if |data| == 0 {
      return EmptyResponse;
    }
    var providers := SortedKeys(data.Keys);
    var selected: map<string, Candidate> := map[];
    for i := 0 to |providers|
      invariant forall model :: Kept(selected, model) == Choose(Offers(data, providers[..i], model))
    {
      var next := TakeProvider(selected, providers[i], data[providers[i]]);
      forall model ensures Kept(next, model) == Choose(Offers(data, providers[..i + 1], model)) {
        ChooseStep(data, providers, i, model);
      }
      selected := next;
    }
    assert providers[..|providers|] == providers;
    if |selected| == 0 {
      forall model ensures OffersFor(data, model) == [] {
        ChosenIff(OffersFor(data, model));
        assert Kept(selected, model) == None;
      }
      return NoValidPrice;
    }
    r := Selected(selected);
  }

  lemma {:induction false} ChosenIff(offers: seq<Candidate>)
    ensures Choose(offers).Some? <==> offers != []
  {
    if offers != [] {
      ChosenIff(offers[..|offers| - 1]);
    }
  }

  /** What is selected for a model: a valid offer; if some valid offer costs something, one that costs something
      and less than `EPSILON` more than any such offer, and less than those of earlier providers; otherwise the
      first free one. */
  lemma SelectionIsCheapest(data: Prices, model: string)
    requires OffersFor(data, model) != []
    ensures var offers := OffersFor(data, model); var c := Choose(offers);
      && c.Some? && c.value in offers
      && ((exists d | d in offers :: d.input > 0.0) ==> Cheapest(c.value, offers))
      && ((forall d | d in offers :: d.input == 0.0) ==>
        c.value == offers[0] && forall d | d in offers :: !Less(d.provider, c.value.provider))
  {
    var offers := OffersFor(data, model);
    OffersByProvider(data, Ordered(data.Keys), model);
    ChoiceIsCheapest(offers);
    forall d | d in offers ensures !Less(d.provider, offers[0].provider) {
      var i :| 0 <= i < |offers| && offers[i] == d;
      LessTotal(d.provider, offers[0].provider);
    }
  }

  /** Sorting is what makes it so: in another order near-ties drift, and the kept price can be more than `EPSILON`
      above the cheapest. */
  lemma UnsortedOffersDrift()
    ensures exists offers: seq<Candidate> ::
      && (forall c | c in offers :: c.input > 0.0)
      && Choose(offers).Some? && exists d | d in offers :: Choose(offers).value.input >= d.input + EPSILON
  {
    var c0 := Candidate("c", 1.0, None, None);
    var c1 := Candidate("b", 1.0 + EPSILON / 2.0, None, None);
    var c2 := Candidate("a", 1.0 + EPSILON, None, None);
    var offers := [c0, c1, c2];
    assert offers[..2] == [c0, c1] && [c0, c1][..1] == [c0] && [c0][..0] == [];
    assert Choose([c0]) == Some(c0);
    assert Less("b", "c") && Less("a", "b");
    assert ShouldReplace(c0, c1) && ShouldReplace(c1, c2);
    assert Choose([c0, c1]) == Some(c1);
    assert Choose(offers) == Some(c2);
    assert c0 in offers;
  }
}
