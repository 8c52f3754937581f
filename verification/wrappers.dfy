/** Failure-carrying results shared by every module of the model. */
module Wrappers {

  /** An unsigned 8-bit value (`u8`). */
  type Byte = b: nat | b < 256

  datatype Option<+T> = None | Some(value: T) {
    function GetOr(default: T): T {
      match this
      case Some(v) => v
      case None => default
    }
  }

  /** The error kinds the scripting bridge raises back into a script. */
  datatype Error =
    | ComponentNotFound
    | EntityNotFound
    | AnimatorNotFound
    | ConversionError(to: string)
    | OutOfRange
    | Panic

  datatype Result<+T> = Ok(value: T) | Err(error: Error) {
    predicate IsFailure() { Err? }

    function PropagateFailure<U>(): Result<U>
      requires Err?
    {
      Err(error)
    }

    function Extract(): T
      requires Ok?
    {
      value
    }
  }

  /** No element occurs twice. */
  predicate NoDup<T(==)>(s: seq<T>) {
    forall i, j :: 0 <= i < j < |s| ==> s[i] != s[j]
  }

  /** The tail of a duplicate-free sequence is duplicate-free and lacks the head. */
  lemma {:induction false} NoDupTail<T>(s: seq<T>)
    requires NoDup(s) && s != []
    ensures NoDup(s[1..]) && s[0] !in s[1..]
  {
    forall i, j | 0 <= i < j < |s[1..]| ensures s[1..][i] != s[1..][j] {
      assert s[i + 1] != s[j + 1];
    }
    forall j | 0 <= j < |s[1..]| ensures s[1..][j] != s[0] {
      assert s[0] != s[j + 1];
    }
  }

  /** Appending `head` and then `tail` appends `all` when `all` is `head + tail`. */
  lemma {:induction false} AppendTrans<T>(p0: seq<T>, head: seq<T>, p1: seq<T>, tail: seq<T>, p2: seq<T>, all: seq<T>)
    requires p1 == p0 + head && p2 == p1 + tail && all == head + tail
    ensures p2 == p0 + all
  {
    assert p0 + head + tail == p0 + (head + tail);
  }

  /** Two duplicate-free sequences with no common element concatenate to one. */
  lemma {:induction false} NoDupAppend<T>(a: seq<T>, b: seq<T>)
    requires NoDup(a) && NoDup(b) && forall x :: x in a ==> x !in b
    ensures NoDup(a + b)
  {
    forall i, j | 0 <= i < j < |a + b| ensures (a + b)[i] != (a + b)[j] {
      if j < |a| {
      } else if i >= |a| {
        assert (a + b)[i] == b[i - |a|] && (a + b)[j] == b[j - |a|];
      } else {
        assert (a + b)[i] == a[i] && (a + b)[j] == b[j - |a|];
        assert a[i] in a;
      }
    }
  }

  /** Deleting the element at `i`: the rest keeps its order and one copy of `s[i]` is gone. */
  lemma {:induction false} DeleteAt<T>(s: seq<T>, i: nat)
    requires i < |s|
    ensures |s[..i] + s[i + 1..]| == |s| - 1
    ensures forall j :: 0 <= j < i ==> (s[..i] + s[i + 1..])[j] == s[j]
    ensures forall j :: i < j < |s| ==> (s[..i] + s[i + 1..])[j - 1] == s[j]
    ensures multiset(s[..i] + s[i + 1..]) + multiset{s[i]} == multiset(s)
  {
    assert s == s[..i] + [s[i]] + s[i + 1..];
  }

  /** Inserting `x` before position `i`. */
  lemma {:induction false} InsertAt<T>(s: seq<T>, i: nat, x: T)
    requires i <= |s|
    ensures |s[..i] + [x] + s[i..]| == |s| + 1
    ensures forall j :: 0 <= j < |s| + 1 ==>
      (s[..i] + [x] + s[i..])[j] == (if j < i then s[j] else if j == i then x else s[j - 1])
    ensures multiset(s[..i] + [x] + s[i..]) == multiset(s) + multiset{x}
  {
    assert s == s[..i] + s[i..];
  }

  /** Overwriting position `i` with `x`. */
  lemma {:induction false} ReplaceAt<T>(s: seq<T>, i: nat, x: T)
    requires i < |s|
    ensures multiset(s[i := x]) == multiset(s) - multiset{s[i]} + multiset{x}
  {
    assert s == s[..i] + [s[i]] + s[i + 1..];
    assert s[i := x] == s[..i] + [x] + s[i + 1..];
  }

  function Min(a: int, b: int): int { if a <= b then a else b }

  function Max(a: int, b: int): int { if a >= b then a else b }
}
