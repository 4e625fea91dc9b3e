/** Sequences of collection calls as a client makes them, with what the model guarantees about
    the outcome of the whole sequence. */
module Scenarios {
  import opened Base
  import opened Storage
  import UndoLog
  import opened AnkiCollection

  /** Undo pressed over a review stack whose newest card's note exists and whose queue has a
      daily bucket: that card comes back, the stack shrinks by one, the notes stay. */
  method UndoNewest(col: Collection, now: real, cardConf: CardRow -> DeckConf) returns (r: Result<Option<CardId>>)
    requires col.Valid() && col.undo.Review?
    requires col.undo.cards[|col.undo.cards| - 1].nid in col.db.data.notes
    requires 0 <= col.undo.cards[|col.undo.cards| - 1].queue <= 4
    modifies col, col.db
    ensures col.Valid()
    ensures r == Ok(Some(old(col.undo.cards[|col.undo.cards| - 1].id)))
    ensures col.undo == UndoLog.PopReview(old(col.undo)).1
    ensures col.db.data.notes.Keys == old(col.db.data.notes.Keys)
    ensures col.reps == old(col.reps) - 1
  {
    ghost var c := col.undo.cards[|col.undo.cards| - 1];
    r := col.Undo(now, cardConf);
    assert UndoLog.DailyBucket(c.queue).Ok?;
  }

  /** Two cards answered one after the other, then undo pressed twice: the second card comes back
      first, then the first, and nothing is left to undo. */
  method TwoReviewsUndoneNewestFirst(col: Collection, a: CardRow, b: CardRow, title: string,
                                     now: real, cardConf: CardRow -> DeckConf)
    returns (first: Result<Option<CardId>>, second: Result<Option<CardId>>)
    requires col.Valid() && !col.undo.Review?
    requires a.nid in col.db.data.notes && b.nid in col.db.data.notes
    requires 0 <= a.queue <= 4 && 0 <= b.queue <= 4
    modifies col, col.db
    ensures first == Ok(Some(b.id)) && second == Ok(Some(a.id))
    ensures col.undo == UndoLog.NoUndo && UndoLog.UndoName(col.undo).None?
    ensures col.reps == old(col.reps) - 2
  {
    var ra := col.MarkReview(a, title);
    var rb := col.MarkReview(b, title);
    assert col.undo.cards == [a, b];
    first := UndoNewest(col, now, cardConf);
    assert col.undo.cards == [a];
    second := UndoNewest(col, now, cardConf);
  }

  /** Saving twice in a row: the second save finds nothing to commit and changes nothing in the
      database, whatever the first one did. */
  method SaveTwice(col: Collection, now1: real, now2: real)
    requires col.Valid()
    modifies col, col.db
    ensures col.db.commits <= old(col.db.commits) + 1
    ensures col.db.rollbacks == old(col.db.rollbacks)
    ensures !col.db.mod && !col.ModifiedAfterBegin()
  {
    col.Save(None, None, true, now1);
    ghost var commits1, data1 := col.db.commits, col.db.data;
    col.Save(None, None, true, now2);
    assert col.db.commits == commits1 && col.db.data == data1;
  }

  /** A named save, then a bare save before anything else: the checkpoint no longer offers undo. */
  method CheckpointThenSave(col: Collection, name: string, now1: real, now2: real)
    requires col.Valid() && name != ""
    modifies col, col.db
    ensures UndoLog.UndoName(col.undo).None?
  {
    col.Save(Some(name), None, true, now1);
    assert UndoLog.UndoName(col.undo) == Some(name);
    col.Save(None, None, true, now2);
  }

  /** A bare save between reviews keeps the review undo history. */
  method ReviewSurvivesSave(col: Collection, a: CardRow, title: string, now: real)
    requires col.Valid() && a.nid in col.db.data.notes
    modifies col, col.db
    ensures UndoLog.UndoName(col.undo) == Some(title)
    ensures col.undo.Review? && col.undo.cards == old(UndoLog.Pending(col.undo)) + [a]
  {
    var r := col.MarkReview(a, title);
    col.Save(None, None, true, now);
  }

  /** A confirmed schema change stamped after the last sync: a later checked change proceeds
      without asking again. */
  method SchemaAsksOnce(col: Collection, now1: real, now2: real) returns (second: Result<()>)
    requires col.Valid()
    requires IntTime(now1, 1000) > col.db.data.col.ls
    modifies col, col.db
    ensures second.Ok?
  {
    var first := col.ModSchema(true, true, now1);
    assert first.Ok? && col.db.data.col.scm == IntTime(now1, 1000);
    assert col.SchemaChanged();
    second := col.ModSchema(true, false, now2);
  }

  /** Two ids drawn for the same kind are consecutive. */
  method NextIdsAreConsecutive(col: Collection, kind: string, now: real) returns (a: int, b: int)
    modifies col.db
    ensures b == a + 1
  {
    a := col.NextId(kind, true, now);
    b := col.NextId(kind, true, now);
  }
}
