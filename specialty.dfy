/** The drink-type selection of `useSpecialtyStore`: the distinct drink types
    of the catalogue and the types the user has selected. */
module Specialty {
  import opened Common

  /** One catalogue entry of `/specialtyDrink.json`; `kind` is the field `type`. */
  datatype Drink = Drink(
    id: int, regionId: int, name: string, kind: string, degree: real,
    sweetness: int, cost: int, description: string, imageUrl: string, createAt: string)

  /** The selection a successful fetch installs: soju, beer and liqueur. */
  const DefaultSelection: seq<string> := ["소주", "맥주", "리큐르"]

  /** The drink type of every catalogue entry, in catalogue order. */
  function Kinds(ds: seq<Drink>): seq<string> {
    seq(|ds|, i requires 0 <= i < |ds| => ds[i].kind)
  }

  predicate NoDuplicates(s: seq<string>) {
    forall i, j :: 0 <= i < j < |s| ==> s[i] != s[j]
  }

  /** The elements of `s` passed through a JavaScript `Set`, which keeps its
      elements in insertion order and ignores an element it already holds. */
  function Distinct(s: seq<string>): (r: seq<string>)
    ensures NoDuplicates(r)
    ensures forall x :: x in r <==> x in s
    decreases |s|
  {
    if s == [] then []
    else
      var d := Distinct(s[..|s| - 1]);
      assert s == s[..|s| - 1] + [s[|s| - 1]];
      if s[|s| - 1] in d then d else d + [s[|s| - 1]]
  }

  /** Index of the first occurrence of `x` in `s`. */
  function FirstIdx(s: seq<string>, x: string): (i: nat)
    requires x in s
    ensures i < |s| && s[i] == x
    ensures forall j :: 0 <= j < i ==> s[j] != x
  {
    if s[0] == x then 0 else 1 + FirstIdx(s[1..], x)
  }

  lemma FirstIdxPrefix(p: seq<string>, t: seq<string>, x: string)
    requires x in p
    ensures x in p + t && FirstIdx(p + t, x) == FirstIdx(p, x)
  {
    var j := FirstIdx(p, x);
    assert (p + t)[j] == x;
  }

  /** The distinct types appear in the order in which they first occur. */
  lemma {:induction false} DistinctOrder(s: seq<string>)
    ensures forall i, j :: 0 <= i < j < |Distinct(s)| ==>
      FirstIdx(s, Distinct(s)[i]) < FirstIdx(s, Distinct(s)[j])
    decreases |s|
  {
    if s != [] {
      var p, x := s[..|s| - 1], s[|s| - 1];
      assert s == p + [x];
      DistinctOrder(p);
      var d := Distinct(p);
      forall y | y in d
        ensures FirstIdx(s, y) == FirstIdx(p, y) < |p|
      {
        FirstIdxPrefix(p, [x], y);
      }
      if x !in d {
        assert forall j :: 0 <= j < |p| ==> s[j] == p[j] != x;
        assert FirstIdx(s, x) == |p|;
      }
    }
  }

  /** The list without any occurrence of `d`. */
  function Remove(s: seq<string>, d: string): (r: seq<string>)
    ensures d !in r
    ensures forall x :: x != d ==> (x in r <==> x in s)
    ensures Subseq(r, s)
    ensures multiset(r) == multiset(s)[d := 0]
  {
    if s == [] then []
    else
      var rest := Remove(s[1..], d);
      SubseqCons(s[0], rest, s[1..]);
      assert s == [s[0]] + s[1..];
      if s[0] == d then rest else [s[0]] + rest
  }

  lemma {:induction false} RemoveAbsent(s: seq<string>, d: string)
    requires d !in s
    ensures Remove(s, d) == s
  {
    if s != [] {
      RemoveAbsent(s[1..], d);
      assert s == [s[0]] + s[1..];
    }
  }

  lemma {:induction false} RemoveAppend(a: seq<string>, b: seq<string>, d: string)
    ensures Remove(a + b, d) == Remove(a, d) + Remove(b, d)
  {
    if a == [] {
      assert a + b == b;
    } else {
      assert (a + b)[0] == a[0] && (a + b)[1..] == a[1..] + b;
      RemoveAppend(a[1..], b, d);
    }
  }

  /** `toggleDrinkSelection`: remove every occurrence, or append. */
  function Toggle(s: seq<string>, d: string): seq<string> {
    if d in s then Remove(s, d) else s + [d]
  }

  /** Toggling flips exactly the membership of the toggled drink. */
  lemma ToggleFlips(s: seq<string>, d: string)
    ensures d in Toggle(s, d) <==> d !in s
    ensures forall x :: x != d ==> (x in Toggle(s, d) <==> x in s)
  {
  }

  /** Toggling an absent drink appends it, and toggling it again restores the list. */
  lemma ToggleAbsentTwice(s: seq<string>, d: string)
    requires d !in s
    ensures Toggle(s, d) == s + [d]
    ensures Toggle(Toggle(s, d), d) == s
  {
    RemoveAppend(s, [d], d);
    RemoveAbsent(s, d);
    assert Remove([d], d) == [];
  }

  /** Toggling a present drink twice moves it, once, to the end. */
  lemma TogglePresentTwice(s: seq<string>, d: string)
    requires d in s
    ensures Toggle(Toggle(s, d), d) == Remove(s, d) + [d]
  {
  }

  class SpecialtyStore {
    var alldrinks: seq<string>
    var selectedDrinks: seq<string>

    constructor ()
      ensures alldrinks == [] && selectedDrinks == []
    {
      alldrinks := [];
      selectedDrinks := [];
    }

    /** `fetchDrinks` once `axios.get` settles: `None` when it rejects. On
        success the distinct types replace `alldrinks` and the selection is
        reset to the default. */
    method FetchDrinks(response: Option<seq<Drink>>)
      modifies this
      ensures response.None? ==> alldrinks == old(alldrinks) && selectedDrinks == old(selectedDrinks)
      ensures response.Some? ==>
        alldrinks == Distinct(Kinds(response.value)) && selectedDrinks == DefaultSelection
    {
      if response.Some? {
        var drinksType := Distinct(Kinds(response.value));
        alldrinks, selectedDrinks := drinksType, DefaultSelection;
      }
    }

    method ToggleDrinkSelection(drink: string)
      modifies this
      ensures selectedDrinks == Toggle(old(selectedDrinks), drink)
      ensures drink in selectedDrinks <==> drink !in old(selectedDrinks)
      ensures alldrinks == old(alldrinks)
    {
      if drink in selectedDrinks {
        selectedDrinks := Remove(selectedDrinks, drink);
      } else {
        selectedDrinks := selectedDrinks + [drink];
      }
    }

    method SetSelectedDrinks(drinks: seq<string>)
      modifies this
      ensures selectedDrinks == drinks && alldrinks == old(alldrinks)
    {
      selectedDrinks := drinks;
    }
  }
}
