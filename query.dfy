/** The query engine under the handlers: the filter stages of the model
    list and the linear scan that looks a record up by id. Each has a
    specification function and a loop method proved equal to it. */
module Query {
  import opened Wrappers
  import opened GoStrings
  import opened Catalog

  // ----- Order-preserving subsequences -------------------------------------

  /** `r` is `s` with some elements left out and the rest in their order. */
  ghost predicate IsSubsequence<T>(r: seq<T>, s: seq<T>)
    decreases |s|
  {
    r == []
    || (s != []
        && ((r[|r| - 1] == s[|s| - 1] && IsSubsequence(r[..|r| - 1], s[..|s| - 1]))
            || IsSubsequence(r, s[..|s| - 1])))
  }

  lemma {:induction false} SubsequenceReflexive<T>(s: seq<T>)
    ensures IsSubsequence(s, s)
    decreases |s|
  {
    if s != [] {
      SubsequenceReflexive(s[..|s| - 1]);
    }
  }

  /** Appending the same element to both keeps a subsequence; appending to
      the longer one only, too. */
  lemma SubsequenceSnoc<T>(r: seq<T>, s: seq<T>, x: T)
    requires IsSubsequence(r, s)
    ensures IsSubsequence(r + [x], s + [x]) && IsSubsequence(r, s + [x])
  {
    assert (r + [x])[..|r|] == r && (s + [x])[..|s|] == s;
  }

  lemma {:induction false} SubsequenceTransitive<T>(a: seq<T>, b: seq<T>, c: seq<T>)
    requires IsSubsequence(a, b) && IsSubsequence(b, c)
    ensures IsSubsequence(a, c)
    decreases |c|
  {
    if a != [] {
      var c' := c[..|c| - 1];
      if IsSubsequence(b, c') {
        SubsequenceTransitive(a, b, c');
      } else {
        var b' := b[..|b| - 1];
        if IsSubsequence(a, b') {
          SubsequenceTransitive(a, b', c');
        } else {
          SubsequenceTransitive(a[..|a| - 1], b', c');
        }
      }
    }
  }

  /** Every prefix of `s` is a subsequence of `s`. */
  lemma {:induction false} PrefixIsSubsequence<T>(s: seq<T>, n: nat)
    requires n <= |s|
    ensures IsSubsequence(s[..n], s)
    decreases |s|
  {
    if n == |s| {
      assert s[..n] == s;
      SubsequenceReflexive(s);
    } else {
      var init := s[..|s| - 1];
      PrefixIsSubsequence(init, n);
      assert init[..n] == s[..n];
    }
  }

  // ----- Filter stages of the model list -----------------------------------

  /** One filter stage of the model list. The search needle is held
      lower-cased, as the handler lower-cases the query once before it
      scans. */
  datatype Criterion =
    | NameContains(needle: string)
    | ManufacturerIs(manufacturerId: int)
    | CategoryIs(categoryId: int)

  predicate Holds(c: Criterion, m: CarModel)
  {
    match c
    case NameContains(needle) => Contains(ToLower(m.name), needle)
    case ManufacturerIs(id) => m.manufacturerId == id
    case CategoryIs(id) => m.categoryId == id
  }

  /** One filter stage: the models that satisfy `c`, no others, in the order
      of `ms`. */
  function Filter(ms: seq<CarModel>, c: Criterion): (r: seq<CarModel>)
    ensures |r| <= |ms|
  {
    if ms == [] then []
    else Filter(ms[..|ms| - 1], c) + (if Holds(c, ms[|ms| - 1]) then [ms[|ms| - 1]] else [])
  }

  /** A filter stage keeps exactly the models that satisfy it. */
  lemma {:induction false} FilterMembership(ms: seq<CarModel>, c: Criterion)
    ensures forall m :: m in Filter(ms, c) <==> m in ms && Holds(c, m)
    decreases |ms|
  {
    if ms != [] {
      FilterMembership(ms[..|ms| - 1], c);
      assert ms == ms[..|ms| - 1] + [ms[|ms| - 1]];
    }
  }

  /** A filter stage keeps the input order. */
  lemma {:induction false} FilterIsSubsequence(ms: seq<CarModel>, c: Criterion)
    ensures IsSubsequence(Filter(ms, c), ms)
    decreases |ms|
  {
    if ms != [] {
      var init, last := ms[..|ms| - 1], ms[|ms| - 1];
      FilterIsSubsequence(init, c);
      SubsequenceSnoc(Filter(init, c), init, last);
      assert init + [last] == ms;
      assert Filter(init, c) + [] == Filter(init, c);
    }
  }

  /** A filter stage that every model passes leaves the list as it is. */
  lemma {:induction false} FilterKeepsAll(ms: seq<CarModel>, c: Criterion)
    requires forall i :: 0 <= i < |ms| ==> Holds(c, ms[i])
    ensures Filter(ms, c) == ms
    decreases |ms|
  {
    if ms != [] {
      var init, last := ms[..|ms| - 1], ms[|ms| - 1];
      FilterKeepsAll(init, c);
      assert Holds(c, last);
      assert Filter(ms, c) == Filter(init, c) + [last];
      assert init + [last] == ms;
    }
  }

  /** A filter stage that no model passes leaves nothing. */
  lemma {:induction false} FilterDropsAll(ms: seq<CarModel>, c: Criterion)
    requires forall i :: 0 <= i < |ms| ==> !Holds(c, ms[i])
    ensures Filter(ms, c) == []
    decreases |ms|
  {
    if ms != [] {
      FilterDropsAll(ms[..|ms| - 1], c);
    }
  }

  /** Applying the same filter stage twice is applying it once. */
  lemma FilterIdempotent(ms: seq<CarModel>, c: Criterion)
    ensures Filter(Filter(ms, c), c) == Filter(ms, c)
  {
    var r := Filter(ms, c);
    FilterMembership(ms, c);
    assert forall i :: 0 <= i < |r| ==> r[i] in r;
    FilterKeepsAll(r, c);
  }

  /** The models satisfying all of `cs`. */
  predicate HoldsAll(cs: seq<Criterion>, m: CarModel)
  {
    forall i :: 0 <= i < |cs| ==> Holds(cs[i], m)
  }

  /** A model passes a criterion list headed by `c` when it passes `c` and the rest. */
  lemma HoldsAllCons(c: Criterion, cs: seq<Criterion>, m: CarModel)
    ensures HoldsAll([c] + cs, m) <==> Holds(c, m) && HoldsAll(cs, m)
  {
    var all := [c] + cs;
    assert all[0] == c;
    assert forall i :: 0 <= i < |cs| ==> all[i + 1] == cs[i];
    if Holds(c, m) && HoldsAll(cs, m) {
      forall i | 0 <= i < |all| ensures Holds(all[i], m) {
        if i > 0 {
          assert all[i] == cs[i - 1];
        }
      }
    }
  }

  /** The reference for several stages: one pass that keeps the models
      satisfying every criterion at once. */
  function FilterAll(ms: seq<CarModel>, cs: seq<Criterion>): (r: seq<CarModel>)
    ensures |r| <= |ms|
  {
    if ms == [] then []
    else FilterAll(ms[..|ms| - 1], cs) + (if HoldsAll(cs, ms[|ms| - 1]) then [ms[|ms| - 1]] else [])
  }

  /** A one-pass filter keeps exactly the models that satisfy every criterion. */
  lemma {:induction false} FilterAllMembership(ms: seq<CarModel>, cs: seq<Criterion>)
    ensures forall m :: m in FilterAll(ms, cs) <==> m in ms && HoldsAll(cs, m)
    decreases |ms|
  {
    if ms != [] {
      FilterAllMembership(ms[..|ms| - 1], cs);
      assert ms == ms[..|ms| - 1] + [ms[|ms| - 1]];
    }
  }

  /** One pass with no criterion keeps everything. */
  lemma {:induction false} FilterAllNone(ms: seq<CarModel>)
    ensures FilterAll(ms, []) == ms
    decreases |ms|
  {
    if ms != [] {
      FilterAllNone(ms[..|ms| - 1]);
    }
  }

  /** A stage followed by a pass with more criteria is one pass with all of
      them. */
  lemma {:induction false} FilterThenFilterAll(ms: seq<CarModel>, c: Criterion, cs: seq<Criterion>)
    ensures FilterAll(Filter(ms, c), cs) == FilterAll(ms, [c] + cs)
    decreases |ms|
  {
    if ms != [] {
      var init, last := ms[..|ms| - 1], ms[|ms| - 1];
      FilterThenFilterAll(init, c, cs);
      HoldsAllCons(c, cs, last);
      var f := Filter(ms, c);
      if Holds(c, last) {
        assert f == Filter(init, c) + [last];
        assert f[..|f| - 1] == Filter(init, c);
      } else {
        assert f == Filter(init, c) + [] == Filter(init, c);
        assert FilterAll(ms, [c] + cs) == FilterAll(init, [c] + cs) + [] == FilterAll(init, [c] + cs);
      }
    }
  }

  /** Whether a model passes a one-pass filter is all that decides the
      result: criteria lists that accept the same models give the same list. */
  lemma {:induction false} FilterAllSameAcceptance(ms: seq<CarModel>, cs: seq<Criterion>, ds: seq<Criterion>)
    requires forall m :: HoldsAll(cs, m) <==> HoldsAll(ds, m)
    ensures FilterAll(ms, cs) == FilterAll(ms, ds)
    decreases |ms|
  {
    if ms != [] {
      FilterAllSameAcceptance(ms[..|ms| - 1], cs, ds);
    }
  }

  /** The stages applied in sequence, first to last, as the handler does. */
  function Narrow(ms: seq<CarModel>, cs: seq<Criterion>): (r: seq<CarModel>)
    ensures IsSubsequence(r, ms)
    decreases |cs|
  {
    if cs == [] then
      SubsequenceReflexive(ms);
      ms
    else
      var f := Filter(ms, cs[0]);
      FilterIsSubsequence(ms, cs[0]);
      SubsequenceTransitive(Narrow(f, cs[1..]), f, ms);
      Narrow(f, cs[1..])
  }

  /** Stages in sequence are conjunctive: narrowing stage by stage gives
      exactly the one-pass list of the models satisfying every criterion, in
      their original order, duplicates included. */
  lemma {:induction false} NarrowIsConjunction(ms: seq<CarModel>, cs: seq<Criterion>)
    ensures Narrow(ms, cs) == FilterAll(ms, cs)
    decreases |cs|
  {
    if cs == [] {
      FilterAllNone(ms);
    } else {
      NarrowIsConjunction(Filter(ms, cs[0]), cs[1..]);
      FilterThenFilterAll(ms, cs[0], cs[1..]);
      assert [cs[0]] + cs[1..] == cs;
    }
  }

  /** Narrowing by a concatenation of criteria lists is narrowing by the
      first list, then by the second. */
  lemma {:induction false} NarrowAppend(ms: seq<CarModel>, cs: seq<Criterion>, ds: seq<Criterion>)
    ensures Narrow(ms, cs + ds) == Narrow(Narrow(ms, cs), ds)
    decreases |cs|
  {
    if cs != [] {
      assert (cs + ds)[0] == cs[0] && (cs + ds)[1..] == cs[1..] + ds;
      NarrowAppend(Filter(ms, cs[0]), cs[1..], ds);
    } else {
      assert cs + ds == ds;
    }
  }

  /** A model passes a concatenation of criteria lists when it passes both. */
  lemma HoldsAllAppend(cs: seq<Criterion>, ds: seq<Criterion>, m: CarModel)
    ensures HoldsAll(cs + ds, m) <==> HoldsAll(cs, m) && HoldsAll(ds, m)
  {
    var all := cs + ds;
    assert forall i :: 0 <= i < |cs| ==> all[i] == cs[i];
    assert forall i :: 0 <= i < |ds| ==> all[|cs| + i] == ds[i];
    if HoldsAll(cs, m) && HoldsAll(ds, m) {
      forall i | 0 <= i < |all| ensures Holds(all[i], m) {
        if i >= |cs| {
          assert all[i] == ds[i - |cs|];
        }
      }
    }
  }

  /** A one-pass filter keeps the input order. */
  lemma {:induction false} FilterAllIsSubsequence(ms: seq<CarModel>, cs: seq<Criterion>)
    ensures IsSubsequence(FilterAll(ms, cs), ms)
    decreases |ms|
  {
    if ms != [] {
      var init, last := ms[..|ms| - 1], ms[|ms| - 1];
      FilterAllIsSubsequence(init, cs);
      SubsequenceSnoc(FilterAll(init, cs), init, last);
      assert init + [last] == ms;
      assert FilterAll(init, cs) + [] == FilterAll(init, cs);
    }
  }

  /** Two filter stages commute. */
  lemma FilterCommutes(ms: seq<CarModel>, a: Criterion, b: Criterion)
    ensures Filter(Filter(ms, a), b) == Filter(Filter(ms, b), a)
  {
    NarrowIsConjunction(ms, [a, b]);
    NarrowIsConjunction(ms, [b, a]);
    assert [a, b][1..] == [b] && [b, a][1..] == [a];
    assert Narrow(Filter(ms, a), [b]) == Filter(Filter(ms, a), b);
    assert Narrow(Filter(ms, b), [a]) == Filter(Filter(ms, b), a);
    FilterAllSameAcceptance(ms, [a, b], [b, a]);
  }

  /** The filter loop of each stage: walks `ms` and appends every model that
      satisfies `c`. */
  method Retain(ms: seq<CarModel>, c: Criterion) returns (filtered: seq<CarModel>)
    ensures filtered == Filter(ms, c)
  {
    filtered := [];
    for i := 0 to |ms|
      invariant filtered == Filter(ms[..i], c)
    {
      assert ms[..i + 1][..i] == ms[..i];
      if Holds(c, ms[i]) {
        filtered := filtered + [ms[i]];
      }
    }
    assert ms[..|ms|] == ms;
  }

  // ----- Lookup by id ------------------------------------------------------

  /** `s[i]` is the first element of `s` whose key is `id`. */
  ghost predicate FirstWith<T>(s: seq<T>, key: T -> int, id: int, i: int)
  {
    0 <= i < |s| && key(s[i]) == id && forall j :: 0 <= j < i ==> key(s[j]) != id
  }

  /** The lookup the by-id handlers perform: the first element whose key is
      `id`, or `None` when no element has it. */
  function Find<T>(s: seq<T>, key: T -> int, id: int): (r: Option<T>)
    ensures r.None? <==> forall i :: 0 <= i < |s| ==> key(s[i]) != id
    ensures r.Some? ==> exists i :: FirstWith(s, key, id, i) && s[i] == r.value
  {
    if s == [] then None
    else if key(s[0]) == id then
      assert FirstWith(s, key, id, 0);
      Some(s[0])
    else
      var r := Find(s[1..], key, id);
      assert forall i :: FirstWith(s[1..], key, id, i) ==> FirstWith(s, key, id, i + 1);
      r
  }

  /** With unique ids, looking up the id of any element finds that element. */
  lemma FindUnique<T>(s: seq<T>, key: T -> int, i: int)
    requires forall j, k :: 0 <= j < k < |s| ==> key(s[j]) != key(s[k])
    requires 0 <= i < |s|
    ensures Find(s, key, key(s[i])) == Some(s[i])
  {
    var r := Find(s, key, key(s[i]));
    var k :| FirstWith(s, key, key(s[i]), k) && s[k] == r.value;
    assert k == i;
  }

  /** The scan loop: returns at the first element whose key is `id`. */
  method Scan<T>(s: seq<T>, key: T -> int, id: int) returns (r: Option<T>)
    ensures r == Find(s, key, id)
  {
    for i := 0 to |s|
      invariant Find(s[i..], key, id) == Find(s, key, id)
    {
      if key(s[i]) == id {
        return Some(s[i]);
      }
      assert s[i..][1..] == s[i + 1..];
    }
    return None;
  }
}
