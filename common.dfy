/** Shared vocabulary of the model: optional values, isl identifiers, statement
    instances, the finite-relation operations the code takes from isl, and the
    C library's strrchr. */
module Common {

  datatype Option<T> = None | Some(value: T)

  /** An isl_id. Identifiers are compared by identity in the source, so two
      identifiers are the same object exactly when they are equal here. */
  type Id = nat

  /** One dynamic instance of a statement: the statement's tuple identifier and
      its iteration vector. */
  datatype Inst = Inst(stmt: Id, point: seq<int>)

  /** A point of the schedule space (a logical execution date). */
  type Timestamp = seq<int>

  /** isl_map_apply_range: follow a pair of "r" by a pair of "s". */
  function ApplyRange<A(==,!new), B(==,!new), C(==,!new)>(r: set<(A, B)>, s: set<(B, C)>): (q: set<(A, C)>)
    ensures forall a, b, c :: (a, b) in r && (b, c) in s ==> (a, c) in q
    ensures forall p :: p in q ==> exists b :: (p.0, b) in r && (b, p.1) in s
  {
    set x, y | x in r && y in s && x.1 == y.0 :: (x.0, y.1)
  }

  /** isl_union_map_apply_domain: replace the domain of "r" by its image under "s". */
  function ApplyDomain<A(==,!new), B(==,!new), C(==,!new)>(r: set<(A, B)>, s: set<(A, C)>): (q: set<(C, B)>)
    ensures forall a, b, c :: (a, b) in r && (a, c) in s ==> (c, b) in q
    ensures forall p :: p in q ==> exists a :: (a, p.1) in r && (a, p.0) in s
  {
    set x, y | x in r && y in s && x.0 == y.0 :: (y.1, x.1)
  }

  /** isl_map_reverse. */
  function Reverse<A(==,!new), B(==,!new)>(r: set<(A, B)>): (q: set<(B, A)>)
    ensures forall a, b :: (a, b) in r <==> (b, a) in q
  {
    set x | x in r :: (x.1, x.0)
  }

  /** strrchr: the position of the last occurrence of "c" in "s", if any. */
  function LastIndexOf(s: string, c: char): (r: Option<nat>)
    ensures r.Some? ==> r.value < |s| && s[r.value] == c
    ensures r.Some? ==> forall j :: r.value < j < |s| ==> s[j] != c
    ensures r.None? <==> c !in s
  {
    LastIndexBelow(s, c, |s|)
  }

  /** The last occurrence of "c" among the first "n" characters of "s". */
  function LastIndexBelow(s: string, c: char, n: nat): (r: Option<nat>)
    requires n <= |s|
    ensures r.Some? ==> r.value < n && s[r.value] == c
    ensures r.Some? ==> forall j :: r.value < j < n ==> s[j] != c
    ensures r.None? <==> forall j :: 0 <= j < n ==> s[j] != c
  {
    if n == 0 then None
    else if s[n - 1] == c then Some(n - 1)
    else LastIndexBelow(s, c, n - 1)
  }

  /** strrchr over a concatenation whose right part holds the character. */
  lemma {:induction false} LastIndexOfConcat(a: string, b: string, c: char)
    requires c in b
    ensures LastIndexOf(a + b, c) == Some(|a| + LastIndexOf(b, c).value)
  {
    var k := LastIndexOf(b, c).value;
    assert (a + b)[|a| + k] == c;
    var r := LastIndexOf(a + b, c);
    assert r.Some?;
    assert forall j :: |a| + k < j < |a + b| ==> (a + b)[j] == b[j - |a|];
  }

  /** strrchr finds nothing after a leading occurrence that is the only one. */
  lemma LastIndexOfOnlyFirst(s: string, c: char)
    requires |s| > 0 && s[0] == c && c !in s[1..]
    ensures LastIndexOf(s, c) == Some(0)
  {
    assert forall j :: 0 < j < |s| ==> s[j] == s[1..][j - 1];
  }

  /** Concatenation regroups. */
  lemma AppendAssoc<T>(a: seq<T>, b: seq<T>, c: seq<T>)
    ensures (a + b) + c == a + (b + c)
  {
  }
}
