/** The event ring: a fixed buffer updated in place that must stand for the newest events of the
    whole history, and the snapshot copied out of it for a reader. */
module EventRing {
  import opened CStrings

  const CAPACITY := 64
  const JSON_LEN := 512

  // One slot: the number stored with the event, and its character buffer.
  datatype Slot = Slot(seqNo: nat, json: seq<char>)

  // An event as committed: its number, and the text the buffer could hold.
  datatype Stored = Stored(seqNo: nat, text: string)

  function Prefix(text: string, size: nat): string
    requires size > 0
  {
    if |text| < size then text else text[..size - 1]
  }

  /** What is kept is a beginning of the text, all of it if it fits with its terminator, and otherwise
      one character less than the buffer holds. */
  lemma PrefixExactly(text: string, size: nat)
    requires size > 0
    ensures Prefix(text, size) <= text
    ensures |Prefix(text, size)| == if |text| < size then |text| else size - 1
  {
  }

  /** snprintf("%s") into a buffer: the text as far as it fits, a terminator, and whatever was left
      behind it by an older, longer event. */
  function Printed(buffer: seq<char>, text: string): seq<char>
    requires |buffer| > 0
  {
    var kept := Prefix(text, |buffer|);
    kept + [NUL] + buffer[|kept| + 1..]
  }

  /** Printing into a dirty buffer and reading back gives the text, cut at the buffer's size. */
  lemma PrintedReadsBack(buffer: seq<char>, text: string)
    requires |buffer| > 0 && NulFree(text)
    ensures |Printed(buffer, text)| == |buffer|
    ensures TextIn(Printed(buffer, text)) == if |text| < |buffer| then text else text[..|buffer| - 1]
    ensures Printed(buffer, text)[|Prefix(text, |buffer|)|] == NUL && NulFree(Prefix(text, |buffer|))
  {
    var kept := Prefix(text, |buffer|);
    assert forall c :: c in kept ==> c in text;
    assert Printed(buffer, text)[..|kept|] == kept;
    TextEndsAtNul(Printed(buffer, text), |kept|);
  }

  /** What the ring stands for: the texts of the newest events, oldest first. */
  function Window(history: seq<Stored>): seq<string> {
    var count := if |history| < CAPACITY then |history| else CAPACITY;
    seq(count, i requires 0 <= i < count => history[|history| - count + i].text)
  }

  /** Each commit appends to the window and, once it is full, drops its oldest entry. */
  lemma WindowSlides(history: seq<Stored>, e: Stored)
    ensures Window(history + [e])
            == (if |history| < 64 then Window(history) else Window(history)[1..]) + [e.text]
    ensures |Window(history)| == if |history| < 64 then |history| else 64
  {
  }

  class EventRing {
    const slots: array<Slot>
    var head: nat
    var count: nat
    ghost var history: seq<Stored>

    ghost predicate Valid()
      reads this, slots
    {
      && slots.Length == CAPACITY
      && head == |history| % CAPACITY
      && count == (if |history| < CAPACITY then |history| else CAPACITY)
      && (forall i :: 0 <= i < CAPACITY ==> |slots[i].json| == JSON_LEN)
      && (forall k :: |history| - count <= k < |history| ==> Holds(slots[k % CAPACITY], history[k]))
    }

    constructor ()
      ensures Valid() && history == [] && fresh(slots)
    {
      slots := new Slot[CAPACITY](_ => Slot(0, seq(JSON_LEN, _ => NUL)));
      head, count, history := 0, 0, [];
    }

    /** The locked half of an emission: fill the head slot and advance. */
    method Commit(seqNo: nat, text: string)
      requires Valid() && NulFree(text)
      modifies this, slots
      ensures Valid()
      ensures history == old(history) + [Stored(seqNo, if |text| <= 511 then text else text[..511])]
    {
      PrintedReadsBack(slots[head].json, text);
      OtherSlots(|history|, count);
      slots[head] := Slot(seqNo, Printed(slots[head].json, text));
      head := (head + 1) % CAPACITY;
      if count < CAPACITY {
        count := count + 1;
      }
      history := history + [Stored(seqNo, Prefix(text, JSON_LEN))];
    }

    /** The caller holds the lock. Copies the ring oldest first into the snapshot's buffers. */
    method Snapshot(copy: array<seq<char>>) returns (n: nat)
      requires Valid() && copy.Length == CAPACITY
      requires forall i :: 0 <= i < CAPACITY ==> |copy[i]| == JSON_LEN
      modifies copy
      ensures n == |Window(history)|
      ensures forall i :: 0 <= i < n ==> TextIn(copy[i]) == Window(history)[i]
      ensures forall i :: 0 <= i < CAPACITY ==> |copy[i]| == JSON_LEN
    {
      var start := (head + CAPACITY - count) % CAPACITY;
      n := count;
      ghost var window := Window(history);
      var i := 0;
      while i < count
        invariant 0 <= i <= count
        invariant forall j :: 0 <= j < i ==> TextIn(copy[j]) == window[j]
        invariant forall j :: 0 <= j < CAPACITY ==> |copy[j]| == JSON_LEN
      {
        OldestHolds(i);
        ghost var e := history[|history| - count + i];
        assert window[i] == e.text;
        var line := CopyText(slots[(start + i) % CAPACITY].json, copy[i], e);
        copy[i] := line;
        i := i + 1;
      }
    }

    /** Each event still in the window has a slot with its number and its text. */
    lemma SlotsHoldHistory(k: nat)
      requires Valid() && k < |history| && k + CAPACITY >= |history|
      ensures slots[k % CAPACITY].seqNo == history[k].seqNo && TextIn(slots[k % CAPACITY].json) == history[k].text
    {
      assert Holds(slots[k % CAPACITY], history[k]);
      TextEndsAtNul(slots[k % CAPACITY].json, |history[k].text|);
    }

    lemma OldestHolds(i: nat)
      requires Valid() && i < count
      ensures var slot := slots[((head + CAPACITY - count) % CAPACITY + i) % CAPACITY];
              |slot.json| == JSON_LEN && Holds(slot, history[|history| - count + i])
    {
      SlotOf(|history|, count, i);
      var k := |history| - count + i;
      assert Holds(slots[k % CAPACITY], history[k]);
    }
  }

  /** A slot holds an event: its number, and its text up to a terminator inside the buffer. */
  ghost predicate Holds(slot: Slot, e: Stored) {
    && slot.seqNo == e.seqNo
    && |e.text| < |slot.json|
    && slot.json[..|e.text|] == e.text
    && slot.json[|e.text|] == NUL
    && NulFree(e.text)
  }

  /** Copies one slot's text, and a terminator, over a buffer of the snapshot. */
  method CopyText(src: seq<char>, buffer: seq<char>, ghost e: Stored) returns (line: seq<char>)
    requires |src| == |buffer| == JSON_LEN && Holds(Slot(e.seqNo, src), e)
    ensures |line| == JSON_LEN && TextIn(line) == e.text
  {
    var len := TextLength(src);
    assert src[..|e.text|] == e.text;
    assert len == |e.text|;
    line := src[..len] + [NUL] + buffer[len + 1..];
    assert line[..len] == e.text;
    TextEndsAtNul(line, len);
  }

  /** Where the i-th oldest event lies. */
  lemma SlotOf(total: nat, count: nat, i: nat)
    requires count == if total < CAPACITY then total else CAPACITY
    ensures ((total % CAPACITY + CAPACITY - count) % CAPACITY + i) % CAPACITY == (total - count + i) % CAPACITY
  {
  }

  /** The slot about to be overwritten holds none of the events that stay in the window. */
  lemma OtherSlots(total: nat, count: nat)
    requires count == if total < CAPACITY then total else CAPACITY
    ensures forall k :: total - count <= k < total && k > total - CAPACITY ==> k % CAPACITY != total % CAPACITY
    ensures (total + 1) % CAPACITY == (total % CAPACITY + 1) % CAPACITY
  {
    forall k | total - count <= k < total && k > total - CAPACITY
      ensures k % CAPACITY != total % CAPACITY
    {
      LessThanATurn(k, total);
    }
  }

  lemma LessThanATurn(k: nat, total: nat)
    requires k < total < k + CAPACITY
    ensures k % CAPACITY != total % CAPACITY
  {
  }

  /** memchr for the terminator within the first 511 characters. */
  method TextLength(src: seq<char>) returns (len: nat)
    requires |src| == JSON_LEN
    ensures len <= JSON_LEN - 1 && forall j :: 0 <= j < len ==> src[j] != NUL
    ensures len < JSON_LEN - 1 ==> src[len] == NUL
  {
    len := 0;
    while len < JSON_LEN - 1 && src[len] != NUL
      invariant 0 <= len <= JSON_LEN - 1 && forall j :: 0 <= j < len ==> src[j] != NUL
    {
      len := len + 1;
    }
  }
}
