/** The rows of the collection database that the modelled code reads and writes, and the
    table updates its SQL statements perform, as functions on those rows. */
module Storage {
  import opened Base

  type CardId = int
  type NoteId = int

  // Card queue values (anki/consts.py).
  const QueueSiblingBuried: int := -2
  const QueueNew: int := 0
  const QueueLrn: int := 1
  const QueueRev: int := 2
  const QueueDayLearnRelearn: int := 3
  const QueuePreview: int := 4

  const LeechTag: string := "leech"

  /** A row of the `cards` table. `ctype` is the `type` column; `flags` is a 64-bit SQLite integer. */
  datatype CardRow = CardRow(
    id: CardId, nid: NoteId, did: int, ctype: int, queue: int,
    due: int, ivl: int, flags: bv64, mod: int, usn: int)

  /** A row of the `notes` table: its note type, its joined fields, its tags. */
  datatype NoteRow = NoteRow(mid: int, flds: string, tags: set<string>)

  /** A row of the `revlog` table, reduced to its key and its card. */
  datatype RevlogEntry = RevlogEntry(id: int, cid: CardId)

  /** A row of the `graves` table: a deletion tombstone. */
  datatype Grave = Grave(usn: int, oid: int, kind: int)

  /** The single row of the `col` table: creation, modification, schema, last-sync times and usn. */
  datatype ColRow = ColRow(crt: int, mod: int, scm: int, ls: int, usn: int)

  /** The whole database as the modelled code sees it; `conf` is the configuration store. */
  datatype Tables = Tables(
    col: ColRow, conf: map<string, int>, cards: map<CardId, CardRow>,
    notes: map<NoteId, NoteRow>, revlog: seq<RevlogEntry>, graves: seq<Grave>)

  /** `select id from revlog where cid = ? order by id desc limit 1`. */
  function LastRevlogId(revlog: seq<RevlogEntry>, cid: CardId): (r: Option<int>)
    ensures r.None? <==> forall i :: 0 <= i < |revlog| ==> revlog[i].cid != cid
    ensures r.Some? ==> exists i :: 0 <= i < |revlog| && revlog[i].cid == cid && revlog[i].id == r.value
    ensures r.Some? ==> forall i :: 0 <= i < |revlog| && revlog[i].cid == cid ==> revlog[i].id <= r.value
    decreases |revlog|
  {
    if revlog == [] then None
    else
      var init := revlog[..|revlog| - 1];
      var last := revlog[|revlog| - 1];
      var best := LastRevlogId(init, cid);
      assert forall i :: 0 <= i < |init| ==> init[i] == revlog[i];
      if last.cid != cid then best
      else if best.Some? && best.value > last.id then best
      else Some(last.id)
  }

  /** `delete from revlog where id = ?`; a missing id (SQL NULL) matches no row. */
  function DeleteRevlogId(revlog: seq<RevlogEntry>, id: Option<int>): (r: seq<RevlogEntry>)
    ensures forall e :: e in r <==> e in revlog && (id.None? || e.id != id.value)
    ensures id.None? ==> r == revlog
    ensures |r| <= |revlog|
    decreases |revlog|
  {
    if revlog == [] then []
    else
      var rest := DeleteRevlogId(revlog[1..], id);
      if id.Some? && revlog[0].id == id.value then rest else [revlog[0]] + rest
  }

  /** A card of note `nid` that was buried because a sibling was being reviewed. */
  predicate SiblingBuried(c: CardRow, nid: NoteId)
  {
    c.nid == nid && c.queue == QueueSiblingBuried
  }

  /** `set queue=type, mod=?, usn=?` on one card. */
  function Unbury(c: CardRow, mod: int, usn: int): (r: CardRow)
    ensures r.queue == c.ctype && r.mod == mod && r.usn == usn
    ensures r.(queue := c.queue, mod := c.mod, usn := c.usn) == c
  {
    c.(queue := c.ctype, mod := mod, usn := usn)
  }

  /** `update cards set queue=type,mod=?,usn=? where queue=-2 and nid=?`. */
  function RestoreSiblings(cards: map<CardId, CardRow>, nid: NoteId, mod: int, usn: int): (r: map<CardId, CardRow>)
    ensures r.Keys == cards.Keys
    ensures forall id :: id in cards && SiblingBuried(cards[id], nid) ==> r[id] == Unbury(cards[id], mod, usn)
    ensures forall id :: id in cards && !SiblingBuried(cards[id], nid) ==> r[id] == cards[id]
    ensures forall id :: id in cards && r[id].queue != cards[id].queue ==> SiblingBuried(cards[id], nid)
  {
    map id | id in cards :: if SiblingBuried(cards[id], nid) then Unbury(cards[id], mod, usn) else cards[id]
  }

  /** `(flags & ~7) | flag`: the user flag lives in the three low bits. */
  function FlagBits(flags: bv64, flag: bv64): (r: bv64)
    requires flag <= 7
    ensures r & 7 == flag
    ensures r & !7 == flags & !7
  {
    (flags & !7) | flag
  }

  /** `update cards set flags = (flags & ~7) | ?, usn=?, mod=? where id in (cids)`. */
  function SetFlags(cards: map<CardId, CardRow>, cids: seq<CardId>, flag: bv64, usn: int, mod: int): (r: map<CardId, CardRow>)
    requires flag <= 7
    ensures r.Keys == cards.Keys
    ensures forall id :: id in cards && id in cids ==>
      r[id] == cards[id].(flags := FlagBits(cards[id].flags, flag), usn := usn, mod := mod)
    ensures forall id :: id in cards && id !in cids ==> r[id] == cards[id]
  {
    map id | id in cards :: if id in cids then cards[id].(flags := FlagBits(cards[id].flags, flag), usn := usn, mod := mod) else cards[id]
  }

  /** The tombstones `_logRem` inserts: one per id, in order, with the same usn and kind. */
  function Graves(ids: seq<int>, usn: int, kind: int): (r: seq<Grave>)
    ensures |r| == |ids|
    ensures forall i :: 0 <= i < |ids| ==> r[i] == Grave(usn, ids[i], kind)
  {
    seq(|ids|, i requires 0 <= i < |ids| => Grave(usn, ids[i], kind))
  }

  /** The database writes of undoing one review of card snapshot `c`: drop the leech tag the review
      added, write the snapshot back, delete the card's latest review-log entry unless previewing,
      and unbury the note's sibling cards (which reaches `c` itself when its snapshot is buried). */
  function RestoreReviewed(t: Tables, c: CardRow, wasLeech: bool, previewing: bool, mod: int, usn: int): (r: Tables)
    requires wasLeech || c.nid in t.notes
    ensures r.col == t.col && r.conf == t.conf && r.graves == t.graves
    ensures r.notes.Keys == t.notes.Keys
    ensures forall nid :: nid in t.notes && nid != c.nid ==> r.notes[nid] == t.notes[nid]
    ensures c.nid in t.notes ==>
      && r.notes[c.nid].mid == t.notes[c.nid].mid
      && r.notes[c.nid].flds == t.notes[c.nid].flds
      && r.notes[c.nid].tags - {LeechTag} == t.notes[c.nid].tags - {LeechTag}
      && (LeechTag in r.notes[c.nid].tags <==> wasLeech && LeechTag in t.notes[c.nid].tags)
    ensures r.cards.Keys == t.cards.Keys + {c.id}
    ensures r.cards[c.id] == if c.queue == QueueSiblingBuried then Unbury(c, mod, usn) else c
    ensures forall id :: id in t.cards && id != c.id ==>
      r.cards[id] == if SiblingBuried(t.cards[id], c.nid) then Unbury(t.cards[id], mod, usn) else t.cards[id]
    ensures previewing ==> r.revlog == t.revlog
    ensures !previewing ==> r.revlog == DeleteRevlogId(t.revlog, LastRevlogId(t.revlog, c.id))
  {
    var notes :=
      if !wasLeech && LeechTag in t.notes[c.nid].tags
      then t.notes[c.nid := t.notes[c.nid].(tags := t.notes[c.nid].tags - {LeechTag})]
      else t.notes;
    var revlog := if previewing then t.revlog else DeleteRevlogId(t.revlog, LastRevlogId(t.revlog, c.id));
    var cards := RestoreSiblings(t.cards[c.id := c], c.nid, mod, usn);
    t.(notes := notes, cards := cards, revlog := revlog)
  }
}
