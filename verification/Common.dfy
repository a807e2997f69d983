/** Values shared by every service: identifiers, optional strings with the
    truthiness test the services apply to them, and the list operations the
    services take from the array library. */
module Common {

  type Id = string

  datatype Option<+T> = None | Some(value: T)

  /** An optional string is used only when it is present and not empty. */
  predicate Truthy(s: Option<string>) {
    s.Some? && s.value != ""
  }

  /** A field of a request body that is left out, sent as null, or given. */
  datatype Sent<+T> = Absent | Null | Given(value: T)

  /** A given field replaces the old value; a field left out or null keeps it. */
  function Apply<T>(f: Sent<T>, before: T): T {
    if f.Given? then f.value else before
  }

  /** `s || default` */
  function Or(s: Option<string>, default: string): string {
    if Truthy(s) then s.value else default
  }

  ghost predicate NoDuplicates<T>(s: seq<T>) {
    forall i, j :: 0 <= i < j < |s| ==> s[i] != s[j]
  }

  /** The elements of `s` that satisfy `p`, in order. */
  function Filter<T(!new)>(p: T -> bool, s: seq<T>): (r: seq<T>)
    ensures forall x :: x in r <==> x in s && p(x)
    ensures |r| <= |s|
    ensures |s| == 1 ==> r == if p(s[0]) then s else []
  {
    if s == [] then []
    else (if p(s[0]) then [s[0]] else []) + Filter(p, s[1..])
  }

  lemma {:induction false} FilterCongruence<T(!new)>(p: T -> bool, q: T -> bool, s: seq<T>)
    requires forall x :: x in s ==> p(x) == q(x)
    ensures Filter(p, s) == Filter(q, s)
  {
    if s != [] {
      FilterCongruence(p, q, s[1..]);
    }
  }

  lemma {:induction false} FilterAppend<T(!new)>(p: T -> bool, s: seq<T>, t: seq<T>)
    ensures Filter(p, s + t) == Filter(p, s) + Filter(p, t)
  {
    if s == [] {
      assert s + t == t;
    } else {
      assert (s + t)[1..] == s[1..] + t;
      FilterAppend(p, s[1..], t);
    }
  }

  /** `[...new Set(s)]`: every element once, at its first position. */
  function Distinct<T(==,!new)>(s: seq<T>): (r: seq<T>)
    ensures forall x :: x in r <==> x in s
    ensures NoDuplicates(r)
  {
    if s == [] then []
    else
      var last := s[|s| - 1];
      var rest := Distinct(s[..|s| - 1]);
      assert s == s[..|s| - 1] + [last];
      if last in rest then rest else rest + [last]
  }
}
