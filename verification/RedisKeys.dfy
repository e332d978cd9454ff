// Keys and holder values of redislock (redislock/lock.go).

module RedisKeys {
  import opened Decimal
  import opened Text

  function LockKey(prefix: string, name: string): string {
    prefix + ":" + name
  }

  function SlotKey(prefix: string, name: string, slot: nat): string {
    prefix + ":" + name + ":" + Dec(slot)
  }

  function FenceKey(prefix: string, name: string): string {
    prefix + ":" + name + ":fence"
  }

  /** The key an attempt goes for; slot -1 is singleton mode. */
  function KeyFor(prefix: string, name: string, slot: int): string {
    if slot < 0 then LockKey(prefix, name) else SlotKey(prefix, name, slot)
  }

  /** A holder's value: the random identifier, and the trace id if there is one. */
  function HolderValue(identifier: string, traceID: string): string {
    if traceID == "" then identifier else identifier + "|trace:" + traceID
  }

  /** HolderIdentifier: the value up to the first '|'. */
  function HolderIdentifier(value: string): string {
    value[..IndexOf(value, '|')]
  }

  /** The keys of a lock. */
  lemma KeyNames(prefix: string, name: string, slot: nat)
    ensures KeyFor(prefix, name, -1) == prefix + ":" + name
    ensures KeyFor(prefix, name, slot) == prefix + ":" + name + ":" + Dec(slot)
    ensures FenceKey(prefix, name) == prefix + ":" + name + ":fence"
  {
  }

  // ---------------------------------------------------------------- values are as distinct as identifiers

  lemma IdentifierOfValue(identifier: string, traceID: string)
    requires '|' !in identifier
    ensures HolderIdentifier(HolderValue(identifier, traceID)) == identifier
  {
    var v := HolderValue(identifier, traceID);
    var i := IndexOf(v, '|');
    assert forall j :: 0 <= j < |identifier| ==> v[j] == identifier[j] && v[j] in identifier;
    if traceID != "" {
      assert v[|identifier|] == '|';
    }
    assert i == |identifier|;
  }

  /** What follows the identifier is the trace id, marked as such. */
  lemma TraceOfValue(identifier: string, traceID: string)
    ensures identifier <= HolderValue(identifier, traceID)
    ensures HolderValue(identifier, traceID)[|identifier|..] == if traceID == "" then "" else "|trace:" + traceID
  {
  }

  /** Two holders with different random identifiers never have the same value, whatever their traces. */
  lemma DistinctIdentifiersDistinctValues(a: string, s: string, b: string, t: string)
    requires '|' !in a && '|' !in b && a != b
    ensures HolderValue(a, s) != HolderValue(b, t)
  {
    IdentifierOfValue(a, s);
    IdentifierOfValue(b, t);
  }

  // ---------------------------------------------------------------- which keys coincide

  lemma SplitAtLastColon(a: string, d: string, b: string, e: string)
    requires ':' !in d && ':' !in e
    ensures a + [':'] + d == b + [':'] + e <==> a == b && d == e
  {
    if a + [':'] + d == b + [':'] + e {
      LastIndexBeforeTail(a, ':', d);
      LastIndexBeforeTail(b, ':', e);
      assert a == (a + [':'] + d)[..|a|] && d == (a + [':'] + d)[|a| + 1..];
    }
  }

  lemma DigitsHaveNoColon(n: nat)
    ensures ':' !in Dec(n) && Dec(n) != "fence"
  {
    assert forall i :: 0 <= i < |Dec(n)| ==> IsDigit(Dec(n)[i]);
    assert !IsDigit("fence"[0]);
  }

  lemma PrefixCancels(prefix: string, a: string, b: string)
    ensures prefix + ":" + a == prefix + ":" + b <==> a == b
  {
    assert a == (prefix + ":" + a)[|prefix| + 1..];
    assert b == (prefix + ":" + b)[|prefix| + 1..];
  }

  /** Slot keys determine name and slot. */
  lemma SlotKeysDiffer(prefix: string, name: string, slot: nat, other: string, slot': nat)
    ensures SlotKey(prefix, name, slot) == SlotKey(prefix, other, slot') <==> name == other && slot == slot'
  {
    hide Dec;
    var a, b := prefix + ":" + name, prefix + ":" + other;
    DigitsHaveNoColon(slot);
    DigitsHaveNoColon(slot');
    assert SlotKey(prefix, name, slot) == a + [':'] + Dec(slot);
    assert SlotKey(prefix, other, slot') == b + [':'] + Dec(slot');
    SplitAtLastColon(a, Dec(slot), b, Dec(slot'));
    PrefixCancels(prefix, name, other);
  }

  /** No slot key is a fence key. */
  lemma SlotIsNotFence(prefix: string, name: string, slot: nat, other: string)
    ensures SlotKey(prefix, name, slot) != FenceKey(prefix, other)
  {
    hide Dec;
    var a, b := prefix + ":" + name, prefix + ":" + other;
    DigitsHaveNoColon(slot);
    assert SlotKey(prefix, name, slot) == a + [':'] + Dec(slot);
    assert FenceKey(prefix, other) == b + [':'] + "fence";
    SplitAtLastColon(a, Dec(slot), b, "fence");
  }

  /** A singleton lock key is a fence key exactly when the lock's name ends in ":fence". */
  lemma LockMeetsFence(prefix: string, name: string, other: string)
    ensures LockKey(prefix, name) == FenceKey(prefix, other) <==> name == other + ":fence"
  {
    assert FenceKey(prefix, other) == prefix + ":" + (other + ":fence");
    PrefixCancels(prefix, name, other + ":fence");
  }

  /** A singleton lock key is a slot key exactly when the lock's name ends in that slot's number. */
  lemma LockMeetsSlot(prefix: string, name: string, other: string, slot: nat)
    ensures LockKey(prefix, name) == SlotKey(prefix, other, slot) <==> name == other + ":" + Dec(slot)
  {
    assert SlotKey(prefix, other, slot) == prefix + ":" + (other + ":" + Dec(slot));
    PrefixCancels(prefix, name, other + ":" + Dec(slot));
  }

  lemma FenceKeysDiffer(prefix: string, name: string, other: string)
    ensures FenceKey(prefix, name) == FenceKey(prefix, other) <==> name == other
  {
    var a, b := prefix + ":" + name, prefix + ":" + other;
    assert FenceKey(prefix, name) == a + [':'] + "fence";
    assert FenceKey(prefix, other) == b + [':'] + "fence";
    SplitAtLastColon(a, "fence", b, "fence");
    PrefixCancels(prefix, name, other);
  }

  /** For names without colons under one prefix, lock, slot and fence keys are pairwise distinct. */
  lemma ColonFreeKeysDiffer(prefix: string, name: string, slot: int, other: string, slot': int)
    requires ':' !in name && ':' !in other
    ensures KeyFor(prefix, name, slot) != FenceKey(prefix, other)
    ensures KeyFor(prefix, name, slot) == KeyFor(prefix, other, slot') <==>
      name == other && (slot == slot' || (slot < 0 && slot' < 0))
  {
    hide LockKey, SlotKey, FenceKey, Dec;
    assert forall x :: ':' in other + ":" + x && ':' in name + ":" + x;
    LockMeetsFence(prefix, name, other);
    assert ':' in other + ":fence";
    if slot >= 0 {
      SlotIsNotFence(prefix, name, slot, other);
      LockMeetsSlot(prefix, other, name, slot);
      if slot' >= 0 { SlotKeysDiffer(prefix, name, slot, other, slot'); }
    } else {
      if slot' >= 0 { LockMeetsSlot(prefix, name, other, slot'); }
      LockKeysDiffer(prefix, name, other);
    }
  }

  lemma LockKeysDiffer(prefix: string, name: string, other: string)
    ensures LockKey(prefix, name) == LockKey(prefix, other) <==> name == other
  {
    PrefixCancels(prefix, name, other);
  }
}
