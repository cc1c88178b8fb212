/*
 * Key dispatch outside overlay mode: the Caps Lock and Num Lock bits are
 * stripped from the modifier state and the first table entry with the
 * same key symbol and the same modifiers runs.
 */
module Keys {
  import opened Types

  /** The modifier state with LockMask and Mod2Mask (Num Lock) cleared. */
  function CleanMask(state: bv32): bv32 {
    state & !(LockMask | Mod2Mask)
  }

  predicate Matches(key: Key, k: KeySym, state: bv32) {
    key.keysym == k && key.mods == CleanMask(state)
  }

  /** Index of the first entry matching from position i on, or |keys|. */
  function FirstMatch(keys: seq<Key>, k: KeySym, state: bv32, i: nat): (j: nat)
    requires i <= |keys|
    ensures i <= j <= |keys|
    decreases |keys| - i
  {
    if i == |keys| then i
    else if Matches(keys[i], k, state) then i
    else FirstMatch(keys, k, state, i + 1)
  }

  /** The action bound to a key event, if any. */
  function Lookup(keys: seq<Key>, k: KeySym, state: bv32): Option<Action> {
    var j := FirstMatch(keys, k, state, 0);
    if j < |keys| then Some(keys[j].action) else None
  }

  lemma {:induction false} FirstMatchIsFirst(keys: seq<Key>, k: KeySym, state: bv32, i: nat)
    requires i <= |keys|
    ensures var j := FirstMatch(keys, k, state, i);
      (j < |keys| ==> Matches(keys[j], k, state))
      && forall m :: i <= m < j ==> !Matches(keys[m], k, state)
    decreases |keys| - i
  {
    if i < |keys| && !Matches(keys[i], k, state) {
      FirstMatchIsFirst(keys, k, state, i + 1);
    }
  }

  /** The bound action is that of the first matching entry; no action is
      bound exactly when no entry matches. */
  lemma LookupFirst(keys: seq<Key>, k: KeySym, state: bv32)
    ensures Lookup(keys, k, state).Some? <==> exists m :: 0 <= m < |keys| && Matches(keys[m], k, state)
    ensures Lookup(keys, k, state).Some? ==> exists m ::
      && 0 <= m < |keys| && Matches(keys[m], k, state)
      && keys[m].action == Lookup(keys, k, state).value
      && forall n :: 0 <= n < m ==> !Matches(keys[n], k, state)
  {
    FirstMatchIsFirst(keys, k, state, 0);
  }

  /** The converse of LookupFirst: the first matching entry is the one
      that runs, and with no matching entry nothing runs. */
  lemma LookupAt(keys: seq<Key>, k: KeySym, state: bv32, j: nat)
    requires j <= |keys|
    requires j < |keys| ==> Matches(keys[j], k, state)
    requires forall m :: 0 <= m < j ==> !Matches(keys[m], k, state)
    ensures Lookup(keys, k, state) == if j < |keys| then Some(keys[j].action) else None
  {
    FirstMatchIsFirst(keys, k, state, 0);
  }

  /** Caps Lock and Num Lock never change which binding runs. */
  lemma LookupIgnoresLocks(keys: seq<Key>, k: KeySym, state: bv32)
    ensures Lookup(keys, k, state | LockMask) == Lookup(keys, k, state)
    ensures Lookup(keys, k, state | Mod2Mask) == Lookup(keys, k, state)
  {
    LockBitsCleared(state);
    FirstMatchSameMask(keys, k, state | LockMask, state, 0);
    FirstMatchSameMask(keys, k, state | Mod2Mask, state, 0);
  }

  lemma LockBitsCleared(state: bv32)
    ensures CleanMask(state | LockMask) == CleanMask(state)
    ensures CleanMask(state | Mod2Mask) == CleanMask(state)
  {
  }

  lemma {:induction false} FirstMatchSameMask(keys: seq<Key>, k: KeySym, s1: bv32, s2: bv32, i: nat)
    requires i <= |keys| && CleanMask(s1) == CleanMask(s2)
    ensures FirstMatch(keys, k, s1, i) == FirstMatch(keys, k, s2, i)
    decreases |keys| - i
  {
    if i < |keys| {
      FirstMatchSameMask(keys, k, s1, s2, i + 1);
    }
  }

  /** The dispatch loop of keypress: the index of the entry that runs, or
      |keys| when none does. */
  method FindBinding(keys: seq<Key>, k: KeySym, state: bv32) returns (j: nat)
    ensures j <= |keys|
    ensures j == FirstMatch(keys, k, state, 0)
  {
    var clean := CleanMask(state);
    j := 0;
    while j < |keys|
      invariant j <= |keys|
      invariant FirstMatch(keys, k, state, 0) == FirstMatch(keys, k, state, j)
    {
      if k == keys[j].keysym && clean == keys[j].mods {
        return;
      }
      j := j + 1;
    }
  }
}
