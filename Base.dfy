/** Shared vocabulary: optional values, the three roles, and the two array
    operations the TypeScript and JavaScript code leans on everywhere —
    `findIndex` on a key and `filter`. */
module Base {

  datatype Option<+T> = None | Some(value: T)

  /** 'student' | 'lecturer' | 'admin' */
  datatype Role = Student | Lecturer | Admin

  /** The string each role is stored and compared as. */
  function RoleName(r: Role): string
  {
    match r
    case Student => "student"
    case Lecturer => "lecturer"
    case Admin => "admin"
  }

  /** `['student', 'lecturer', 'admin'].includes(s)`, returning the role. */
  function ParseRole(s: string): (r: Option<Role>)
    ensures r.Some? ==> RoleName(r.value) == s
    ensures r.None? <==> s != "student" && s != "lecturer" && s != "admin"
  {
    if s == "student" then Some(Student)
    else if s == "lecturer" then Some(Lecturer)
    else if s == "admin" then Some(Admin)
    else None
  }

  lemma ParseRoleName(r: Role)
    ensures ParseRole(RoleName(r)) == Some(r)
  {
  }

  /** Position of the first `x` in `s` (`indexOf`, `findIndex` on a key,
      `find`), or None for -1 / undefined. */
  function IndexOf<T(==)>(s: seq<T>, x: T): (r: Option<nat>)
    ensures r.Some? ==> r.value < |s| && s[r.value] == x && x !in s[..r.value]
    ensures r.None? <==> x !in s
  {
    if s == [] then None
    else if s[0] == x then Some(0)
    else match IndexOf(s[1..], x)
      case None => None
      case Some(i) =>
        assert s[..i + 1] == [s[0]] + s[1..][..i];
        Some(i + 1)
  }

  /** IndexOf finds exactly the first occurrence. */
  lemma IndexOfFirst<T>(s: seq<T>, x: T, k: nat)
    requires k < |s| && s[k] == x && x !in s[..k]
    ensures IndexOf(s, x) == Some(k)
  {
    assert forall j :: 0 <= j < k ==> s[j] == s[..k][j];
    var r := IndexOf(s, x);
    assert r.Some? by {
      assert s[k] in s;
    }
    assert forall j :: 0 <= j < r.value ==> s[j] == s[..r.value][j];
  }

  /** `s.filter(p)`: the elements satisfying `p`, in their original order. */
  function Filter<T(!new)>(s: seq<T>, p: T -> bool): (r: seq<T>)
    ensures |r| <= |s|
    ensures forall x :: x in r <==> x in s && p(x)
    ensures multiset(r) <= multiset(s)
    ensures forall x :: p(x) ==> multiset(r)[x] == multiset(s)[x]
  {
    if s == [] then []
    else
      assert s == [s[0]] + s[1..];
      (if p(s[0]) then [s[0]] else []) + Filter(s[1..], p)
  }

  lemma ConcatAssoc<T>(a: seq<T>, b: seq<T>, c: seq<T>)
    ensures a + (b + c) == (a + b) + c
  {
  }

  /** Filtering a list with a first element `x`. */
  lemma FilterCons<T(!new)>(x: T, rest: seq<T>, p: T -> bool)
    ensures Filter([x] + rest, p) == (if p(x) then [x] else []) + Filter(rest, p)
  {
    assert ([x] + rest)[0] == x && ([x] + rest)[1..] == rest;
  }

  /** Filtering a concatenation filters each part and keeps the parts in
      order; with `FilterCons`, this fixes the order of the result. */
  lemma {:induction false} FilterAppend<T(!new)>(s: seq<T>, t: seq<T>, p: T -> bool)
    ensures Filter(s + t, p) == Filter(s, p) + Filter(t, p)
  {
    if s == [] {
      assert s + t == t;
    } else {
      var x, rest := s[0], s[1..];
      var head: seq<T> := if p(x) then [x] else [];
      assert s == [x] + rest;
      assert s + t == [x] + (rest + t);
      FilterCons(x, rest + t, p);
      FilterCons(x, rest, p);
      FilterAppend(rest, t, p);
      ConcatAssoc(head, Filter(rest, p), Filter(t, p));
    }
  }

  /** When two filters pick complementary elements of `s`, their sizes add
      up to `|s|`. */
  lemma {:induction false} FilterPartition<T(!new)>(s: seq<T>, p: T -> bool, q: T -> bool)
    requires forall x :: x in s ==> (p(x) <==> !q(x))
    ensures |Filter(s, p)| + |Filter(s, q)| == |s|
  {
    if s != [] {
      FilterPartition(s[1..], p, q);
    }
  }
}
