/**
 The stack of include/grace/stack.h, which the visitor keeps its levels on.
 */
module Stacks {
  import opened Wrappers

  class Stack<T(0)> {
    var slots: array?<T>           // array, of asz places
    var cnt: nat
    ghost var contents: seq<T>     // bottom first

    ghost predicate Valid()
      reads this, slots
    {
      && |contents| == cnt && (slots == null ==> cnt == 0)
      && (slots != null ==> 4 <= slots.Length && cnt <= slots.Length && slots[..cnt] == contents)
    }

    constructor ()
      ensures Valid() && contents == []
    {
      slots, cnt, contents := null, 0, [];
    }

    /** A full array is replaced by one of twice the size. */
    method Push(k: T)
      requires Valid()
      modifies this, slots
      ensures Valid() && contents == old(contents) + [k] && (slots == old(slots) || fresh(slots))
    {
      if slots == null { slots := new T[4]; }
      if cnt + 1 > slots.Length { Grow(); }
      slots[cnt] := k;
      cnt := cnt + 1;
      contents := contents + [k];
    }

    method Grow()
      requires Valid() && slots != null
      modifies this`slots
      ensures Valid() && slots != null && fresh(slots) && slots.Length == 2 * old(slots.Length)
    {
      var larger := new T[2 * slots.Length];
      for i := 0 to cnt
        invariant slots == old(slots) && slots != null && cnt == old(cnt) <= slots.Length && larger[..i] == slots[..i]
      {
        larger[i] := slots[i];
      }
      slots := larger;
    }

    /** None stands for the underflow exception, which also lets go of the array. */
    method Pull() returns (k: Option<T>)
      requires Valid()
      modifies this
      ensures Valid() && (slots == old(slots) || slots == null)
      ensures if old(contents) == [] then k == None && contents == [] else k.Some? && old(contents) == contents + [k.value]
    {
      if cnt > 0 {
        cnt := cnt - 1;
        k := Some(slots[cnt]);
        contents := contents[..cnt];
        return;
      }
      slots := null;
      k := None;
    }

    method Peek() returns (k: Option<T>)
      requires Valid()
      ensures k == if contents == [] then None else Some(contents[|contents| - 1])
    {
      if slots == null || cnt == 0 { return None; }
      k := Some(slots[cnt - 1]);
    }

    /** operator[], from the top down; None stands for the exception. */
    method At(pos: int) returns (k: Option<T>)
      requires Valid()
      ensures k == if 0 <= pos < |contents| then Some(contents[|contents| - 1 - pos]) else None
    {
      if pos < 0 || pos >= cnt { return None; }
      k := Some(slots[cnt - 1 - pos]);
    }
  }

  method PushAll<T(0)>(s: Stack<T>, xs: seq<T>)
    requires s.Valid()
    modifies s, s.slots
    ensures s.Valid() && s.contents == old(s.contents) + xs && (s.slots == old(s.slots) || fresh(s.slots))
  {
    for i := 0 to |xs|
      invariant s.Valid() && (s.slots == old(s.slots) || fresh(s.slots)) && s.contents == old(s.contents) + xs[..i]
    {
      s.Push(xs[i]);
    }
    assert xs[..|xs|] == xs;
  }

  /** What is pushed comes back in reverse order, and what was there before stays. */
  method PushThenPull<T(0)>(s: Stack<T>, xs: seq<T>) returns (ys: seq<T>)
    requires s.Valid()
    modifies s, s.slots
    ensures s.Valid() && s.contents == old(s.contents)
    ensures |ys| == |xs| && forall i :: 0 <= i < |xs| ==> ys[i] == xs[|xs| - 1 - i]
  {
    ghost var below := s.contents;
    PushAll(s, xs);
    assert xs[..|xs|] == xs;
    ys := [];
    while |ys| < |xs|
      invariant s.Valid() && |ys| <= |xs| && s.contents == below + xs[..|xs| - |ys|]
      invariant forall i :: 0 <= i < |ys| ==> ys[i] == xs[|xs| - 1 - i]
      decreases |xs| - |ys|
    {
      ghost var n := |xs| - |ys|;
      assert below + xs[..n] == (below + xs[..n - 1]) + [xs[n - 1]];
      ghost var was := s.contents;
      var y := s.Pull();
      assert was[..|was| - 1] == s.contents && was[|was| - 1] == y.value;
      ys := ys + [y.value];
    }
  }
}
