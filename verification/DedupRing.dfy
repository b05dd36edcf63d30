/**
 The duplicate-suppression buffer of components/local_network/espnow_manager.c: 32 slots written in
 turn. It is proved to be a sliding window over everything that was ever inserted.
 */
module DedupRing {

  const SLOTS: nat := 32
  const ID_MAX: nat := 23      // 24 bytes with the terminator

  /** What strlcpy leaves of an id in a slot. */
  function Clip(id: string): string {
    if |id| <= ID_MAX then id else id[..ID_MAX]
  }

  /** The last 32 insertions. */
  function Window(inserted: seq<string>): seq<string> {
    if |inserted| <= SLOTS then inserted else inserted[|inserted| - SLOTS..]
  }

  /** The answer of dedup_seen: the id is in the window, or it is the empty string and some slot has
      never been written. */
  predicate Suppressed(inserted: seq<string>, id: string) {
    id in Window(inserted) || (id == "" && |inserted| < SLOTS)
  }

  function AfterSeen(inserted: seq<string>, id: string): seq<string> {
    if Suppressed(inserted, id) then inserted else inserted + [Clip(id)]
  }

  /** The slots and the write index hold the last insertions, insertion `j` in slot `j % 32`. */
  ghost predicate Represents(slots: seq<string>, index: nat, inserted: seq<string>) {
    && |slots| == SLOTS
    && index == |inserted| % SLOTS
    && (forall k :: |inserted| <= k < SLOTS ==> slots[k] == "")
    && (forall j :: 0 <= j < |inserted| && |inserted| <= j + SLOTS ==> slots[j % SLOTS] == inserted[j])
  }

  class Ring {
    const slots: array<string>
    var index: nat
    ghost var inserted: seq<string>

    ghost predicate Valid()
      reads this, slots
    {
      slots.Length == SLOTS && Represents(slots[..], index, inserted)
    }

    constructor ()
      ensures Valid() && inserted == [] && fresh(slots)
    {
      slots := new string[SLOTS](_ => "");
      index := 0;
      inserted := [];
    }

    /** dedup_seen */
    method Seen(id: string) returns (found: bool)
      requires Valid()
      modifies this, slots
      ensures Valid()
      ensures found == Suppressed(old(inserted), id)
      ensures inserted == AfterSeen(old(inserted), id)
    {
      found := false;
      var i := 0;
      while i < SLOTS && !found
        invariant 0 <= i <= SLOTS
        invariant found ==> id in slots[..]
        invariant !found ==> id !in slots[..i]
        decreases SLOTS - i, !found
      {
        if slots[i] == id {
          assert id == slots[..][i];
          found := true;
        } else {
          assert slots[..i + 1] == slots[..i] + [slots[i]];
          i := i + 1;
        }
      }
      assert !found ==> slots[..i] == slots[..];
      SlotsHoldWindow(slots[..], index, inserted, id);
      if !found {
        InsertSlides(slots[..], index, inserted, Clip(id));
        slots[index] := Clip(id);
        assert slots[..] == old(slots[..])[index := Clip(id)];
        index := (index + 1) % SLOTS;
        inserted := inserted + [Clip(id)];
      }
    }
  }

  // ---------------------------------------------------------------- refinement

  /** The position of the insertion that currently occupies slot `k`. */
  function Occupant(n: nat, k: nat): (j: nat)
    requires k < SLOTS <= n
    ensures j < n <= j + SLOTS && j % SLOTS == k
  {
    n - 1 - (n - 1 - k) % SLOTS
  }

  /** Comparing an id with all 32 slots answers membership in the window. */
  lemma SlotsHoldWindow(slots: seq<string>, index: nat, inserted: seq<string>, id: string)
    requires Represents(slots, index, inserted)
    ensures id in slots <==> Suppressed(inserted, id)
  {
    var n := |inserted|;
    if id in slots {
      var k :| 0 <= k < SLOTS && slots[k] == id;
      if n < SLOTS {
        if k < n {
          assert k % SLOTS == k;
          assert inserted[k] == id;
        }
      } else {
        var j := Occupant(n, k);
        assert inserted[j] == id;
        assert Window(inserted)[j - (n - SLOTS)] == id;
      }
    }
    if id in Window(inserted) {
      var w :| 0 <= w < |Window(inserted)| && Window(inserted)[w] == id;
      var j := if n <= SLOTS then w else n - SLOTS + w;
      assert inserted[j] == id && slots[j % SLOTS] == id;
    }
    if id == "" && n < SLOTS {
      assert slots[n] == "";
    }
  }

  /** Overwriting the slot at the index forgets the oldest insertion and remembers the new one. */
  lemma InsertSlides(slots: seq<string>, index: nat, inserted: seq<string>, id: string)
    requires Represents(slots, index, inserted)
    ensures Represents(slots[index := id], (index + 1) % SLOTS, inserted + [id])
  {
    var n := |inserted|;
    var after := inserted + [id];
    forall j | 0 <= j < n + 1 && n + 1 <= j + SLOTS
      ensures slots[index := id][j % SLOTS] == after[j]
    {
      if j < n {
        SameSlot(j, n);
      }
    }
  }

  lemma SameSlot(j: nat, n: nat)
    requires j < n < j + SLOTS
    ensures j % SLOTS != n % SLOTS
  {
    var turns := n / SLOTS - j / SLOTS;
    assert n - j == SLOTS * turns + (n % SLOTS - j % SLOTS);
  }

  // ---------------------------------------------------------------- call sequences

  function Calls(ids: seq<string>): seq<string> {
    if ids == [] then [] else AfterSeen(Calls(ids[..|ids| - 1]), ids[|ids| - 1])
  }

  predicate Distinct(s: seq<string>) {
    forall i, j :: 0 <= i < j < |s| ==> s[i] != s[j]
  }

  lemma WindowSlides(inserted: seq<string>, id: string)
    ensures Window(inserted + [id]) ==
            (if |inserted| < SLOTS then Window(inserted) else Window(inserted)[1..]) + [id]
  {
  }

  lemma DistinctExtends(w: seq<string>, id: string)
    requires Distinct(w) && id !in w
    ensures Distinct(w + [id])
    ensures w != [] ==> Distinct(w[1..] + [id])
  {
    assert forall i :: 0 <= i < |w| ==> w[i] in w;
  }

  /** After any sequence of calls with ids that fit a slot, the window holds no id twice. */
  lemma {:induction false} WindowIsDistinct(ids: seq<string>)
    requires forall i :: 0 <= i < |ids| ==> |ids[i]| <= ID_MAX
    ensures Distinct(Window(Calls(ids)))
  {
    if ids == [] {
    } else {
      var before, id := Calls(ids[..|ids| - 1]), ids[|ids| - 1];
      WindowIsDistinct(ids[..|ids| - 1]);
      if !Suppressed(before, id) {
        hide Window, Distinct;
        WindowSlides(before, id);
        DistinctExtends(Window(before), id);
        assert |before| >= SLOTS ==> Window(before) != [] by { WindowLength(before); }
      }
    }
  }

  lemma WindowLength(inserted: seq<string>)
    ensures |Window(inserted)| == if |inserted| < SLOTS then |inserted| else SLOTS
  {
  }

  /** An id that does not fit a slot is never recognised again, however often it was inserted. */
  lemma {:induction false} LongIdIsNeverSuppressed(ids: seq<string>, id: string)
    requires |id| > ID_MAX
    ensures !Suppressed(Calls(ids), id)
    ensures forall i :: 0 <= i < |Calls(ids)| ==> |Calls(ids)[i]| <= ID_MAX
  {
    if ids != [] {
      LongIdIsNeverSuppressed(ids[..|ids| - 1], id);
    }
  }

  /** The window is exactly 32 insertions wide: an id survives 31 further insertions, and after 32 or more
      insertions of other ids it is accepted as new again. */
  lemma ForgottenAfterSlots(before: seq<string>, id: string, more: seq<string>)
    requires id != "" && id !in more
    ensures Suppressed(before + [id] + more, id) <==> |more| < 32
  {
    var all := before + [id] + more;
    var w := Window(all);
    if |more| < SLOTS {
      assert w[|w| - |more| - 1] == id;
    } else {
      assert w == more[|more| - SLOTS..];
    }
  }

  /** A new id is put in, up to its 23rd character; one that fits its slot is recognised from then on. */
  lemma SeenIsRemembered(inserted: seq<string>, id: string)
    ensures AfterSeen(inserted, id) ==
            if Suppressed(inserted, id) then inserted else inserted + [if |id| <= 23 then id else id[..23]]
    ensures |id| <= 23 ==> Suppressed(AfterSeen(inserted, id), id)
  {
    var all := inserted + [id];
    assert Window(all)[|Window(all)| - 1] == id;
  }
}
