/** Facts about sequences that several components share. */
module Seqs {

  datatype Option<+T> = None | Some(value: T)

  ghost predicate Distinct<T(!new)>(s: seq<T>) {
    forall i, j :: 0 <= i < j < |s| ==> s[i] != s[j]
  }

  /** `s` with the first occurrence of `x` taken out. */
  function Without<T(==)>(s: seq<T>, x: T): seq<T> {
    if s == [] then [] else if s[0] == x then s[1..] else [s[0]] + Without(s[1..], x)
  }

  lemma {:induction false} WithoutMembers<T(!new)>(s: seq<T>, x: T)
    requires Distinct(s)
    ensures Distinct(Without(s, x))
    ensures forall y :: y in Without(s, x) <==> y in s && y != x
    ensures |Without(s, x)| == if x in s then |s| - 1 else |s|
  {
    if s != [] && s[0] != x {
      WithoutMembers(s[1..], x);
      assert s == [s[0]] + s[1..];
      assert s[0] !in Without(s[1..], x);
      assert forall i :: 0 < i < |Without(s, x)| ==> Without(s, x)[i] == Without(s[1..], x)[i - 1];
    } else if s != [] {
      assert s == [x] + s[1..];
    }
  }

  /** Sum of the lengths of the sequences in `ss`. */
  function TotalLength<T>(ss: seq<seq<T>>): nat {
    if ss == [] then 0 else |ss[0]| + TotalLength(ss[1..])
  }

  lemma {:induction false} TotalLengthUpdate<T>(ss: seq<seq<T>>, i: nat, x: seq<T>)
    requires i < |ss|
    ensures TotalLength(ss[i := x]) == TotalLength(ss) - |ss[i]| + |x|
  {
    if i == 0 {
      assert ss[0 := x][1..] == ss[1..];
    } else {
      TotalLengthUpdate(ss[1..], i - 1, x);
      assert ss[i := x][1..] == ss[1..][i - 1 := x];
    }
  }

  lemma {:induction false} TotalLengthZero<T>(ss: seq<seq<T>>)
    ensures TotalLength(ss) == 0 <==> forall i :: 0 <= i < |ss| ==> ss[i] == []
  {
    if ss != [] {
      TotalLengthZero(ss[1..]);
      assert forall i :: 0 < i < |ss| ==> ss[i] == ss[1..][i - 1];
      assert forall i :: 0 <= i < |ss| - 1 ==> ss[1..][i] == ss[i + 1];
    }
  }

  lemma ConsMembers<T(!new)>(x: T, s: seq<T>)
    ensures forall y :: y in [x] + s <==> y == x || y in s
    ensures Distinct(s) && x !in s ==> Distinct([x] + s)
    ensures Distinct([x] + s) ==> Distinct(s) && x !in s
  {
    var r := [x] + s;
    assert r[0] == x && r[1..] == s;
    assert forall i :: 0 < i < |r| ==> r[i] == s[i - 1];
    if Distinct(r) {
      assert forall i, j :: 0 <= i < j < |s| ==> s[i] == r[i + 1] && s[j] == r[j + 1];
    }
  }

  lemma SubsetOfEmpty<T>(a: seq<T>, b: seq<T>)
    requires forall i :: 0 <= i < |a| ==> a[i] in b
    ensures b == [] ==> a == []
  {
    if a != [] { assert a[0] in b; }
  }

  /** Setting the next element extends an agreed prefix, and the last one completes it. */
  lemma PrefixExtends<T>(acc: seq<T>, full: seq<T>, i: nat)
    requires |acc| == |full| && i < |full| && acc[..i] == full[..i]
    ensures acc[i := full[i]][..i + 1] == full[..i + 1]
    ensures i + 1 == |full| ==> acc[i := full[i]] == full
  {
    var next := acc[i := full[i]];
    forall j | 0 <= j < i ensures next[j] == full[j] { assert acc[..i][j] == full[..i][j]; }
  }
}
