/**
 * Index arithmetic behind the TAB key of both viewers, and the count of
 * selection flags that complex1.cpp keeps on its nodes.
 */
module Cycling {

  /** main.cpp: `selectionIndex = (selectionIndex + 1) % sceneObjects.size()`. */
  function NextMod(i: nat, n: nat): (r: nat)
    requires n > 0
    ensures r < n
  {
    (i + 1) % n
  }

  /** complex1.cpp: increment, and reset to 0 once the index reaches the list size. */
  function NextWrap(i: nat, n: nat): (r: nat)
    requires n > 0
    ensures r < n
    ensures i < n - 1 ==> r == i + 1
    ensures i >= n - 1 ==> r == 0
  {
    if i + 1 >= n then 0 else i + 1
  }

  /** For an index inside the list the two formulations agree. */
  lemma WrapIsMod(i: nat, n: nat)
    requires i < n
    ensures NextWrap(i, n) == NextMod(i, n)
  {
    if i + 1 < n {
      assert (i + 1) % n == i + 1;
    } else {
      assert i + 1 == n;
    }
  }

  /** The cursor after `k` TAB presses. */
  function Presses(i: nat, n: nat, k: nat): (r: nat)
    requires n > 0
  {
    if k == 0 then i else NextMod(Presses(i, n, k - 1), n)
  }

  lemma SmallMod(x: nat, n: nat)
    requires x < n
    ensures x % n == x
  {
  }

  /** Presses compose: `a` presses followed by `b` presses are `a + b` presses. */
  lemma {:induction false} PressesCompose(i: nat, n: nat, a: nat, b: nat)
    requires n > 0
    ensures Presses(i, n, a + b) == Presses(Presses(i, n, a), n, b)
  {
    if b > 0 {
      PressesCompose(i, n, a, b - 1);
    }
  }

  /** Before the end of the list is reached, each press moves the cursor one entry on. */
  lemma {:induction false} PressesWithinList(i: nat, n: nat, k: nat)
    requires i + k < n
    ensures Presses(i, n, k) == i + k
  {
    if k > 0 {
      PressesWithinList(i, n, k - 1);
      SmallMod(i + k, n);
    }
  }

  /** Pressing TAB as many times as there are entries returns the cursor to where it started. */
  lemma FullCycle(i: nat, n: nat)
    requires i < n
    ensures Presses(i, n, n) == i
  {
    PressesCompose(i, n, n - i, i);
    PressesWithinList(i, n, n - i - 1);
    assert Presses(i, n, n - i) == NextMod(n - 1, n);
    assert n % n == 0;
    if i > 0 {
      PressesWithinList(0, n, i);
    }
  }

  /** The number of set flags. */
  function CountTrue(flags: seq<bool>): (r: nat)
    ensures r <= |flags|
  {
    if flags == [] then 0
    else CountTrue(flags[..|flags| - 1]) + (if flags[|flags| - 1] then 1 else 0)
  }

  /** No flag set: the count is zero. */
  lemma {:induction false} NoFlags(flags: seq<bool>)
    requires forall k :: 0 <= k < |flags| ==> !flags[k]
    ensures CountTrue(flags) == 0
  {
    if flags != [] {
      NoFlags(flags[..|flags| - 1]);
    }
  }

  /** A flag set at exactly one position: the count is one. */
  lemma {:induction false} SingleFlag(flags: seq<bool>, i: nat)
    requires i < |flags|
    requires forall k :: 0 <= k < |flags| ==> (flags[k] <==> k == i)
    ensures CountTrue(flags) == 1
  {
    var init := flags[..|flags| - 1];
    if i == |flags| - 1 {
      NoFlags(init);
    } else {
      SingleFlag(init, i);
    }
  }
}
