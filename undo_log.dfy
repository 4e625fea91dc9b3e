/** The collection's single-slot undo record: a stack of reviewed-card snapshots, a named
    checkpoint, or nothing, with the rules by which each operation replaces or clears it. */
module UndoLog {
  import opened Base
  import opened Storage

  /** `[1, name, cards, wasLeech]`, `[2, name]` or `None`. The review snapshots are
      oldest first, so the last one is the review to undo next. */
  datatype UndoRecord =
    | NoUndo
    | Review(name: string, cards: seq<CardRow>, wasLeech: bool)
    | Checkpoint(name: string)

  /** A review record always holds at least the snapshot that created it. */
  predicate Wf(r: UndoRecord)
  {
    r.Review? ==> |r.cards| > 0
  }

  /** `undoName`: the undo menu title, or None when nothing can be undone. */
  function UndoName(r: UndoRecord): (n: Option<string>)
    ensures n.None? <==> r.NoUndo?
    ensures r.Review? ==> n == Some(r.name)
    ensures r.Checkpoint? ==> n == Some(r.name)
  {
    match r
    case NoUndo => None
    case Review(name, _, _) => Some(name)
    case Checkpoint(name) => Some(name)
  }

  /** The snapshots a new review extends: those of a review record, none otherwise. */
  function Pending(r: UndoRecord): seq<CardRow>
  {
    if r.Review? then r.cards else []
  }

  /** `markReview`: a review record extends its stack; any other record is dropped and a new
      stack starts. The leech flag is always that of the card just marked. */
  function MarkReview(r: UndoRecord, card: CardRow, noteHasLeech: bool, title: string): (r': UndoRecord)
    ensures r'.Review? && Wf(r')
    ensures r.Review? ==> r'.cards == r.cards + [card]
    ensures !r.Review? ==> r'.cards == [card]
    ensures r'.wasLeech == noteHasLeech
    ensures UndoName(r') == Some(title)
  {
    Review(title, Pending(r) + [card], noteHasLeech)
  }

  /** Python truthiness of the optional checkpoint name: None and "" are both false. */
  predicate Named(name: Option<string>)
  {
    name.Some? && name.value != ""
  }

  /** `_markOp`: a name installs a checkpoint over whatever was there; no name clears only a
      checkpoint, so a bare save keeps review undo history. */
  function MarkOp(r: UndoRecord, name: Option<string>): (r': UndoRecord)
    ensures Named(name) ==> r'.Checkpoint? && UndoName(r') == name
    ensures !Named(name) ==> !r'.Checkpoint?
    ensures !Named(name) && r.Checkpoint? ==> r' == NoUndo
    ensures !Named(name) && !r.Checkpoint? ==> r' == r
    ensures Wf(r) ==> Wf(r')
  {
    if Named(name) then Checkpoint(name.value)
    else if r.Checkpoint? then NoUndo
    else r
  }

  /** The record part of `_undoReview`: pop the newest snapshot, clearing the record once empty. */
  function PopReview(r: UndoRecord): (p: (CardRow, UndoRecord))
    requires r.Review? && Wf(r)
    ensures p.0 == r.cards[|r.cards| - 1]
    ensures Wf(p.1) && !p.1.Checkpoint?
    ensures p.1.NoUndo? <==> |r.cards| == 1
    ensures p.1.Review? ==> p.1 == r.(cards := r.cards[..|r.cards| - 1])
  {
    var n := |r.cards| - 1;
    (r.cards[n], if n == 0 then NoUndo else r.(cards := r.cards[..n]))
  }

  /** Undoing a review hands back the card just marked and leaves the earlier stack, now
      carrying the newer card's leech flag (the flag is not kept per snapshot). */
  lemma PopUndoesMark(r: UndoRecord, card: CardRow, noteHasLeech: bool, title: string)
    requires Wf(r)
    ensures PopReview(MarkReview(r, card, noteHasLeech, title))
         == (card, if r.Review? then Review(title, r.cards, noteHasLeech) else NoUndo)
  {
    assert (Pending(r) + [card])[..|Pending(r)|] == Pending(r);
  }

  /** Two reviews marked in a row: after the second is undone, the first is undone with the
      second card's leech flag, so a leech tag the first review added is left in place. */
  lemma EarlierReviewTakesLaterLeechFlag(a: CardRow, b: CardRow, title: string)
    ensures var rec := MarkReview(MarkReview(NoUndo, a, false, title), b, true, title);
            PopReview(rec) == (b, Review(title, [a], true))
  {
    PopUndoesMark(MarkReview(NoUndo, a, false, title), b, true, title);
  }

  /** One call of `markReview`: the card snapshot and its note's leech state at that moment. */
  datatype Mark = Mark(card: CardRow, noteHasLeech: bool)

  /** The record after marking every review of `marks`, in order. */
  function MarkAll(r: UndoRecord, marks: seq<Mark>, title: string): UndoRecord
    decreases |marks|
  {
    if marks == [] then r
    else
      var m := marks[|marks| - 1];
      MarkReview(MarkAll(r, marks[..|marks| - 1], title), m.card, m.noteHasLeech, title)
  }

  function Cards(marks: seq<Mark>): (cs: seq<CardRow>)
    ensures |cs| == |marks|
    ensures forall i :: 0 <= i < |marks| ==> cs[i] == marks[i].card
  {
    seq(|marks|, i requires 0 <= i < |marks| => marks[i].card)
  }

  function Reverse<T>(s: seq<T>): (r: seq<T>)
    ensures |r| == |s|
    decreases |s|
  {
    if s == [] then [] else [s[|s| - 1]] + Reverse(s[..|s| - 1])
  }

  lemma {:induction false} ReverseAppend<T>(a: seq<T>, b: seq<T>)
    ensures Reverse(a + b) == Reverse(b) + Reverse(a)
    decreases |b|
  {
    if b == [] {
      assert a + b == a;
    } else {
      var n := |b| - 1;
      assert (a + b)[..|a + b| - 1] == a + b[..n];
      ReverseAppend(a, b[..n]);
    }
  }

  /** Marking reviews stacks their snapshots in order on top of the pending ones; the leech
      flag is that of the last card marked. */
  lemma {:induction false} MarkAllStacks(r: UndoRecord, marks: seq<Mark>, title: string)
    requires |marks| > 0
    ensures MarkAll(r, marks, title).Review?
    ensures MarkAll(r, marks, title).cards == Pending(r) + Cards(marks)
    ensures MarkAll(r, marks, title).wasLeech == marks[|marks| - 1].noteHasLeech
    decreases |marks|
  {
    var init := marks[..|marks| - 1];
    if init == [] {
      assert Cards(marks) == [marks[0].card];
    } else {
      MarkAllStacks(r, init, title);
      assert Cards(marks) == Cards(init) + [marks[|marks| - 1].card];
    }
  }

  /** Calling `undo` while the record is a review stack: the cards restored, in order, and the
      record left at the end. */
  function UndoAll(r: UndoRecord): (u: (seq<CardRow>, UndoRecord))
    requires Wf(r)
    decreases |Pending(r)|
  {
    if !r.Review? then ([], r)
    else
      var p := PopReview(r);
      var rest := UndoAll(p.1);
      ([p.0] + rest.0, rest.1)
  }

  /** Undoing a review stack restores its cards newest first and ends with nothing to undo. */
  lemma {:induction false} UndoAllReverses(r: UndoRecord)
    requires Wf(r) && r.Review?
    ensures UndoAll(r) == (Reverse(r.cards), NoUndo)
    decreases |r.cards|
  {
    var p := PopReview(r);
    if p.1.Review? {
      UndoAllReverses(p.1);
    } else {
      assert r.cards == [p.0];
    }
  }

  /** n reviews marked over a record with no review stack, then undone one by one: the cards
      come back in reverse order of marking, and afterwards `undoName` is None. */
  lemma ReviewsUndoneInReverse(r: UndoRecord, marks: seq<Mark>, title: string)
    requires !r.Review? && |marks| > 0
    ensures UndoAll(MarkAll(r, marks, title)) == (Reverse(Cards(marks)), NoUndo)
    ensures UndoName(UndoAll(MarkAll(r, marks, title)).1).None?
  {
    MarkAllStacks(r, marks, title);
    assert MarkAll(r, marks, title).cards == Cards(marks);
    UndoAllReverses(MarkAll(r, marks, title));
  }

  /** The same over a pending review stack: the new cards come back first, then the older ones. */
  lemma ReviewsUndoneAfterPending(r: UndoRecord, marks: seq<Mark>, title: string)
    requires r.Review? && Wf(r) && |marks| > 0
    ensures UndoAll(MarkAll(r, marks, title)) == (Reverse(Cards(marks)) + Reverse(r.cards), NoUndo)
  {
    MarkAllStacks(r, marks, title);
    UndoAllReverses(MarkAll(r, marks, title));
    ReverseAppend(r.cards, Cards(marks));
  }

  /** A named save followed at once by a bare save clears the record, whatever was there. */
  lemma CheckpointThenBareSaveClears(r: UndoRecord, name: string)
    requires name != ""
    ensures MarkOp(MarkOp(r, Some(name)), None) == NoUndo
  {
  }

  /** The daily-count buckets of `_updateStats`. */
  datatype Bucket = New | Lrn | Rev

  /** `t[n]` on a Python tuple: a negative index counts from the end. */
  function PyIndex<T>(t: seq<T>, n: int): (r: Result<T>)
    ensures r.Ok? <==> -|t| <= n < |t|
    ensures 0 <= n < |t| ==> r == Ok(t[n])
    ensures -|t| <= n < 0 ==> r == Ok(t[|t| + n])
    ensures r.Err? ==> r.error == IndexError
  {
    if 0 <= n < |t| then Ok(t[n])
    else if -|t| <= n < 0 then Ok(t[|t| + n])
    else Err(IndexError)
  }

  /** `("new", "lrn", "rev")[n]` with day-learning and preview queues folded into learning. */
  function DailyBucket(queue: int): (b: Result<Bucket>)
    ensures b.Err? <==> queue < -3 || 4 < queue
    ensures b.Err? ==> b.error == IndexError
    ensures queue == QueueNew ==> b == Ok(New)
    ensures queue == QueueLrn || queue == QueueDayLearnRelearn || queue == QueuePreview ==> b == Ok(Lrn)
    ensures queue == QueueRev ==> b == Ok(Rev)
    ensures queue == -1 ==> b == Ok(Rev)
    ensures queue == QueueSiblingBuried ==> b == Ok(Lrn)
    ensures queue == -3 ==> b == Ok(New)
  {
    var n := if queue == QueueDayLearnRelearn || queue == QueuePreview then QueueLrn else queue;
    PyIndex([New, Lrn, Rev], n)
  }
}
