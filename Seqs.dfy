/** List operations the client performs with `+=`, `push`, `filter` and
    spread: concatenating a list of lists, keeping the present values of a
    list of optional values, and filtering. Each is defined element by
    element from the end, as a loop that appends builds it. */
module Seqs {
  import opened Results

  /** All the lists, one after another. */
  function Flatten<T>(parts: seq<seq<T>>): seq<T>
    decreases |parts|
  {
    if parts == [] then [] else Flatten(parts[..|parts| - 1]) + parts[|parts| - 1]
  }

  lemma {:induction false} FlattenAppend<T>(a: seq<seq<T>>, b: seq<seq<T>>)
    ensures Flatten(a + b) == Flatten(a) + Flatten(b)
    decreases |b|
  {
    if b == [] {
      assert a + b == a;
    } else {
      assert (a + b)[..|a + b| - 1] == a + b[..|b| - 1];
      FlattenAppend(a, b[..|b| - 1]);
    }
  }

  /** The present values, in order. */
  function Somes<T>(s: seq<Option<T>>): seq<T>
    decreases |s|
  {
    if s == [] then []
    else Somes(s[..|s| - 1]) + (match s[|s| - 1] case None => [] case Some(v) => [v])
  }

  lemma {:induction false} SomesAppend<T>(a: seq<Option<T>>, b: seq<Option<T>>)
    ensures Somes(a + b) == Somes(a) + Somes(b)
    decreases |b|
  {
    if b == [] {
      assert a + b == a;
    } else {
      assert (a + b)[..|a + b| - 1] == a + b[..|b| - 1];
      SomesAppend(a, b[..|b| - 1]);
    }
  }

  /** One more optional value adds itself, if present, at the end. */
  lemma SomesSnoc<T>(s: seq<Option<T>>, x: Option<T>)
    ensures Somes(s + [x]) == Somes(s) + (match x case None => [] case Some(v) => [v])
  {
    assert (s + [x])[..|s|] == s;
  }

  /** Extending a prefix of `s` by one more element adds that element's value,
      if present. */
  lemma SomesPrefixStep<T>(s: seq<Option<T>>, i: nat)
    requires i < |s|
    ensures Somes(s[..i + 1]) == Somes(s[..i]) + (match s[i] case None => [] case Some(v) => [v])
  {
    assert s[..i + 1] == s[..i] + [s[i]];
    SomesSnoc(s[..i], s[i]);
  }

  /** A value is kept exactly when it is present somewhere in the input, and
      there are at most as many values as inputs. */
  lemma {:induction false} SomesMembers<T>(s: seq<Option<T>>)
    ensures |Somes(s)| <= |s|
    ensures forall v :: v in Somes(s) <==> Some(v) in s
    decreases |s|
  {
    if s != [] {
      var init := s[..|s| - 1];
      SomesMembers(init);
      assert s == init + [s[|s| - 1]];
      forall v ensures Some(v) in s <==> Some(v) in init || s[|s| - 1] == Some(v) {
      }
    }
  }

  /** `s.filter(keep)`. */
  function Filter<T>(s: seq<T>, keep: T -> bool): seq<T>
    decreases |s|
  {
    if s == [] then []
    else Filter(s[..|s| - 1], keep) + (if keep(s[|s| - 1]) then [s[|s| - 1]] else [])
  }

  lemma {:induction false} FilterAppend<T>(a: seq<T>, b: seq<T>, keep: T -> bool)
    ensures Filter(a + b, keep) == Filter(a, keep) + Filter(b, keep)
    decreases |b|
  {
    if b == [] {
      assert a + b == a;
    } else {
      assert (a + b)[..|a + b| - 1] == a + b[..|b| - 1];
      FilterAppend(a, b[..|b| - 1], keep);
    }
  }

  /** Exactly the elements of `s` that pass `keep` remain, never more of them
      than `s` has. */
  lemma {:induction false} FilterMembers<T>(s: seq<T>, keep: T -> bool)
    ensures |Filter(s, keep)| <= |s|
    ensures forall x :: x in Filter(s, keep) <==> x in s && keep(x)
    decreases |s|
  {
    if s != [] {
      var init := s[..|s| - 1];
      FilterMembers(init, keep);
      assert s == init + [s[|s| - 1]];
    }
  }

  /** Filtering a filtered list again changes nothing. */
  lemma {:induction false} FilterIdempotent<T>(s: seq<T>, keep: T -> bool)
    ensures Filter(Filter(s, keep), keep) == Filter(s, keep)
    decreases |s|
  {
    if s != [] {
      var init := s[..|s| - 1];
      FilterIdempotent(init, keep);
      var last := if keep(s[|s| - 1]) then [s[|s| - 1]] else [];
      FilterAppend(Filter(init, keep), last, keep);
      assert Filter(last, keep) == last by {
        if last != [] {
          assert last[..0] == [];
        }
      }
    }
  }

}
