/** Stock containers the models share: an option type and facts about duplicate-free sequences. */
module Collections {

  datatype Option<+T> = None | Some(value: T)

  ghost predicate NoDuplicates<T>(s: seq<T>) {
    forall i, j :: 0 <= i < j < |s| ==> s[i] != s[j]
  }

  /** Position of the first occurrence of `x`, or -1, as `Array.prototype.indexOf` answers. */
  function IndexOf<T(==)>(s: seq<T>, x: T): (i: int)
    ensures -1 <= i < |s|
    ensures i >= 0 ==> s[i] == x && x !in s[..i]
    ensures i == -1 <==> x !in s
  {
    if s == [] then -1
    else if s[0] == x then 0
    else
      var rest := IndexOf(s[1..], x);
      assert s == [s[0]] + s[1..];
      if rest == -1 then -1 else assert s[..rest + 1] == [s[0]] + s[1..][..rest]; rest + 1
  }

  /** What `splice(indexOf(x), 1)` leaves when `x` is present; `s` itself otherwise. */
  function RemoveFirst<T(==)>(s: seq<T>, x: T): seq<T> {
    var i := IndexOf(s, x);
    if i < 0 then s else s[..i] + s[i + 1..]
  }

  lemma {:induction false} FirstOccurrence<T>(s: seq<T>, x: T, i: nat)
    requires i < |s| && s[i] == x && x !in s[..i]
    ensures IndexOf(s, x) == i
  {
    if i > 0 {
      assert s[..i][0] == s[0];
      assert s[..i] == [s[0]] + s[1..][..i - 1];
      FirstOccurrence(s[1..], x, i - 1);
    }
  }

  lemma RemoveFirstAbsent<T>(s: seq<T>, x: T)
    requires x !in s
    ensures RemoveFirst(s, x) == s
  {
    assert IndexOf(s, x) == -1;
  }

  lemma RemoveFirstBeforeLast<T>(s: seq<T>, x: T, last: T)
    requires last != x
    ensures RemoveFirst(s + [last], x) == RemoveFirst(s, x) + [last]
  {
    var t := s + [last];
    if x in s {
      var i := IndexOf(s, x);
      assert t[..i] == s[..i];
      FirstOccurrence(t, x, i);
    } else {
      RemoveFirstAbsent(s, x);
      RemoveFirstAbsent(t, x);
    }
  }

  lemma RemoveFirstIsLast<T>(s: seq<T>, x: T)
    requires x !in s
    ensures RemoveFirst(s + [x], x) == s
  {
    var t := s + [x];
    assert t[..|s|] == s;
    FirstOccurrence(t, x, |s|);
  }

  lemma LastIsNew<T>(s: seq<T>)
    requires s != [] && NoDuplicates(s)
    ensures NoDuplicates(s[..|s| - 1]) && s[|s| - 1] !in s[..|s| - 1]
  {
    var front := s[..|s| - 1];
    assert forall k :: 0 <= k < |front| ==> front[k] == s[k];
  }

  lemma SnocKeepsNoDuplicates<T>(s: seq<T>, x: T)
    requires NoDuplicates(s) && x !in s
    ensures NoDuplicates(s + [x])
  {
  }

  lemma RemoveFirstKeepsDistinct<T>(s: seq<T>, x: T)
    requires NoDuplicates(s)
    ensures NoDuplicates(RemoveFirst(s, x))
  {
  }
}
