/** The state a `Collection` keeps on top of its database: the undo record, the save and
    transaction guard, the scheduler version and its schema gate, and the small counters and
    flags it writes itself. */
module AnkiCollection {
  import opened Base
  import opened Text
  import opened Storage
  import UndoLog
  import opened Transaction

  const SupportedSchedulerVersions: set<int> := {1, 2}

  /** `autosave` saves once more than this many seconds have passed since the last save. */
  const AutosaveInterval: real := 300.0

  /** The two entries of a card's deck options that decide whether it is being previewed. */
  datatype DeckConf = DeckConf(dyn: bool, resched: bool)

  /** A card in a filtered deck that does not reschedule: its reviews left no review-log entry. */
  predicate Previewing(conf: DeckConf)
  {
    conf.dyn && !conf.resched
  }

  /** One call of the scheduler's `_updateStats(card, bucket, delta)`. */
  datatype StatsCall = StatsCall(cid: CardId, bucket: UndoLog.Bucket, delta: int)

  /** What `startTimebox` recorded: when the timebox began and the review count then. */
  datatype Timebox = Timebox(startTime: real, startReps: int)

  /** `timeboxReached`: False, or the limit and the reviews done since the timebox began. */
  datatype TimeboxOutcome = NotReached | Reached(limit: int, reps: int)

  /** The configuration key `nextID` counts under: "next" and the capitalized kind. */
  function IdKey(kind: string): (k: string)
    ensures |k| == 4 + |kind| && k[..4] == "next" && k[4..] == Capitalize(kind)
  {
    "next" + Capitalize(kind)
  }

  class Collection {
    const db: DbProxy
    /** Whether this collection is the sync server's copy. */
    const server: bool
    var undo: UndoLog.UndoRecord
    /** The clock reading of the last save. */
    var lastSave: real
    /** The version of the scheduler currently loaded. */
    var schedVersion: int
    /** The loaded scheduler's `reps` counter. */
    var reps: int
    /** The calls made to the loaded scheduler's `_updateStats`, oldest first. */
    var statsCalls: seq<StatsCall>
    var timebox: Option<Timebox>
    /** The direction of every bulk scheduler migration run, oldest first. */
    var migrations: seq<int>

    ghost predicate Valid()
      reads this
    {
      UndoLog.Wf(undo) && schedVersion in SupportedSchedulerVersions
    }

    /** Opening a collection: a transaction is begun, nothing can be undone, and the scheduler
        of the stored version is loaded. */
    constructor (init: Tables, server: bool, now: real)
      requires "schedVer" in init.conf ==> init.conf["schedVer"] in SupportedSchedulerVersions
      ensures Valid() && fresh(db)
      ensures db.data == init && db.committed == init && !db.mod
      ensures db.inTrx && db.lastBeginAt == init.col.mod
      ensures db.commits == 0 && db.rollbacks == 0
      ensures this.server == server && undo == UndoLog.NoUndo && lastSave == now
      ensures schedVersion == (if "schedVer" in init.conf then init.conf["schedVer"] else 1)
      ensures reps == 0 && statsCalls == [] && timebox == None && migrations == []
    {
      db := new DbProxy(init);
      this.server := server;
      undo := UndoLog.NoUndo;
      lastSave := now;
      schedVersion := if "schedVer" in init.conf then init.conf["schedVer"] else 1;
      reps := 0;
      statsCalls := [];
      timebox := None;
      migrations := [];
      new;
      db.Begin();
    }

    // ---------------------------------------------------------------- scheduler version

    /** `schedVer`: the stored version, 1 when none is stored; any other value is refused. */
    function SchedVer(): (r: Result<int>)
      reads db
      ensures r.Ok? ==> r.value in SupportedSchedulerVersions
      ensures "schedVer" !in db.data.conf ==> r == Ok(1)
      ensures "schedVer" in db.data.conf ==>
        r == if db.data.conf["schedVer"] in SupportedSchedulerVersions
             then Ok(db.data.conf["schedVer"]) else Err(UnsupportedSchedulerVersion)
    {
      var ver := if "schedVer" in db.data.conf then db.data.conf["schedVer"] else 1;
      if ver in SupportedSchedulerVersions then Ok(ver) else Err(UnsupportedSchedulerVersion)
    }

    /** `schemaChanged`: the schema was modified after the last sync. */
    function SchemaChanged(): (b: bool)
      reads db
      ensures b <==> db.data.col.ls < db.data.col.scm
    {
      db.data.col.scm > db.data.col.ls
    }

    /** `usn`: the collection's update sequence number on the server, -1 on a client. */
    function Usn(): (u: int)
      reads this, db
      ensures !server ==> u == -1
      ensures server ==> u == db.data.col.usn
    {
      if server then db.data.col.usn else -1
    }

    // ---------------------------------------------------------------- transaction guard

    /** `modified_after_begin`: the backend changed `col.mod` inside the open transaction. */
    function ModifiedAfterBegin(): (b: bool)
      reads db
      ensures !b <==> db.data.col.mod == db.lastBeginAt
    {
      db.lastBeginAt != db.data.col.mod
    }

    /** `save`: commit when the proxy is dirty or the backend modified the collection, stamping
        `col.mod` first and reopening a transaction if `trx`; with nothing to commit, roll back
        only if the caller wants to end outside a transaction. Then record the checkpoint. */
    method Save(name: Option<string>, mod: Option<int>, trx: bool, now: real)
      requires Valid()
      modifies this`undo, this`lastSave, db
      ensures Valid()
      ensures var dirty := old(db.mod || ModifiedAfterBegin());
              var stamp := if mod.Some? then mod.value else IntTime(now, 1000);
              && db.commits == old(db.commits) + (if dirty then 1 else 0)
              && db.rollbacks == old(db.rollbacks) + (if !dirty && !trx then 1 else 0)
              && (dirty ==>
                    && db.data == old(db.data).(col := old(db.data.col).(mod := stamp))
                    && db.committed == db.data && !db.mod && db.inTrx == trx
                    && db.lastBeginAt == (if trx then stamp else old(db.lastBeginAt)))
              && (!dirty && !trx ==>
                    && db.data == old(db.committed) && db.committed == old(db.committed)
                    && !db.mod && !db.inTrx && db.lastBeginAt == old(db.lastBeginAt))
              && (!dirty && trx ==>
                    && db.data == old(db.data) && db.committed == old(db.committed)
                    && !db.mod && db.inTrx == old(db.inTrx) && db.lastBeginAt == old(db.lastBeginAt))
      ensures old(db.mod || ModifiedAfterBegin()) && trx ==> !db.mod && !ModifiedAfterBegin()
      ensures undo == UndoLog.MarkOp(old(undo), name)
      ensures lastSave == now
    {
      if db.mod || ModifiedAfterBegin() {
        var stamp := if mod.Some? then mod.value else IntTime(now, 1000);
        db.data := db.data.(col := db.data.col.(mod := stamp));
        db.Commit();
        db.mod := false;
        if trx {
          db.Begin();
        }
      } else if !trx {
        db.Rollback();
      }
      MarkOp(name);
      lastSave := now;
    }

    /** `autosave`: save if more than five minutes have passed since the last save. */
    method Autosave(now: real) returns (saved: bool)
      requires Valid()
      modifies this`undo, this`lastSave, db
      ensures Valid()
      ensures saved <==> now - old(lastSave) > AutosaveInterval
      ensures !saved ==> unchanged(this) && unchanged(db)
      ensures saved ==>
        && lastSave == now
        && undo == UndoLog.MarkOp(old(undo), None)
        && db.commits == old(db.commits) + (if old(db.mod || ModifiedAfterBegin()) then 1 else 0)
        && db.rollbacks == old(db.rollbacks)
        && db.inTrx == (old(db.mod || ModifiedAfterBegin()) || old(db.inTrx))
        && !db.mod && !ModifiedAfterBegin()
      ensures saved && old(db.mod || ModifiedAfterBegin()) ==>
        var stamp := IntTime(now, 1000);
        && db.data == old(db.data).(col := old(db.data.col).(mod := stamp))
        && db.committed == db.data && db.lastBeginAt == stamp
      ensures saved && !old(db.mod || ModifiedAfterBegin()) ==>
        db.data == old(db.data) && db.committed == old(db.committed) && db.lastBeginAt == old(db.lastBeginAt)
    {
      saved := now - lastSave > AutosaveInterval;
      if saved {
        Save(None, None, true, now);
      }
    }

    /** `rollback`: abandon the open transaction and begin a new one. */
    method Rollback()
      modifies db
      ensures db.data == old(db.committed) && db.committed == old(db.committed)
      ensures db.inTrx && db.lastBeginAt == db.data.col.mod
      ensures db.rollbacks == old(db.rollbacks) + 1 && db.commits == old(db.commits)
      ensures db.mod == old(db.mod)
    {
      db.Rollback();
      db.Begin();
    }

    // ---------------------------------------------------------------- undo

    /** `clearUndo`. */
    method ClearUndo()
      modifies this`undo
      ensures undo == UndoLog.NoUndo
    {
      undo := UndoLog.NoUndo;
    }

    /** `_markOp`, called by `save`. */
    method MarkOp(name: Option<string>)
      requires Valid()
      modifies this`undo
      ensures Valid()
      ensures undo == UndoLog.MarkOp(old(undo), name)
    {
      if name.Some? && name.value != "" {
        undo := UndoLog.Checkpoint(name.value);
      } else if undo.Checkpoint? {
        undo := UndoLog.NoUndo;
      }
    }

    /** `markReview`: snapshot the card about to be answered. The old record is cleared before
        the card's note is loaded, so a note that cannot be loaded leaves nothing to undo. */
    method MarkReview(card: CardRow, title: string) returns (r: Result<()>)
      requires Valid()
      modifies this`undo
      ensures Valid()
      ensures card.nid in db.data.notes ==>
        r == Ok(()) && undo == UndoLog.MarkReview(old(undo), card, LeechTag in db.data.notes[card.nid].tags, title)
      ensures card.nid !in db.data.notes ==> r == Err(NotFound) && undo == UndoLog.NoUndo
    {
      var pending := UndoLog.Pending(undo);
      ClearUndo();
      if card.nid !in db.data.notes {
        return Err(NotFound);
      }
      var wasLeech := LeechTag in db.data.notes[card.nid].tags;
      undo := UndoLog.Review(title, pending + [card], wasLeech);
      r := Ok(());
    }

    /** `undo`: dispatch on the record's kind. With no record it fails on subscripting None
        (callers consult `undoName` first). */
    method Undo(now: real, cardConf: CardRow -> DeckConf) returns (r: Result<Option<CardId>>)
      requires Valid()
      modifies this`undo, this`reps, this`statsCalls, db
      ensures Valid()
      ensures old(undo).NoUndo? ==> r == Err(TypeError) && unchanged(this) && unchanged(db)
      ensures old(undo).Checkpoint? ==>
        && r == Ok(None) && undo == UndoLog.NoUndo
        && db.data == old(db.committed) && db.committed == old(db.committed)
        && db.inTrx && db.lastBeginAt == db.data.col.mod && db.mod == old(db.mod)
        && db.rollbacks == old(db.rollbacks) + 1 && db.commits == old(db.commits)
        && reps == old(reps) && statsCalls == old(statsCalls)
      ensures old(undo).Review? ==> ReviewUndone(old(undo), now, cardConf, r,
        old(db.data), old(db.mod), old(Usn()), old(reps), old(statsCalls))
      ensures old(undo).Review? ==>
        && db.committed == old(db.committed) && db.inTrx == old(db.inTrx) && db.lastBeginAt == old(db.lastBeginAt)
        && db.commits == old(db.commits) && db.rollbacks == old(db.rollbacks)
    {
      if undo.NoUndo? {
        return Err(TypeError);
      }
      if undo.Review? {
        r := UndoReview(now, cardConf);
      } else {
        UndoOp();
        r := Ok(None);
      }
    }

    /** What undoing a review leaves behind, given the record, tables, usn, review counter and
        statistics calls from before: the record without its newest snapshot `c`; a note that
        cannot be loaded stops everything else (the proxy stays as clean as it was); otherwise the database writes of
        `RestoreReviewed`, then the review taken off the daily counts and off `reps`, unless
        the snapshot's queue has no bucket. */
    ghost predicate ReviewUndone(rec: UndoLog.UndoRecord, now: real, cardConf: CardRow -> DeckConf,
                                 r: Result<Option<CardId>>, data0: Tables, mod0: bool, usn0: int, reps0: int,
                                 stats0: seq<StatsCall>)
      requires rec.Review? && UndoLog.Wf(rec)
      reads this, db
    {
      var popped := UndoLog.PopReview(rec);
      var c := popped.0;
      && undo == popped.1
      && (!rec.wasLeech && c.nid !in data0.notes ==>
            && r == Err(NotFound) && db.data == data0 && db.mod == mod0
            && reps == reps0 && statsCalls == stats0)
      && (rec.wasLeech || c.nid in data0.notes ==>
            && db.mod
            && db.data == RestoreReviewed(data0, c, rec.wasLeech, Previewing(cardConf(c)), IntTime(now, 1), usn0)
            && (UndoLog.DailyBucket(c.queue).Err? ==>
                  r == Err(IndexError) && reps == reps0 && statsCalls == stats0)
            && (UndoLog.DailyBucket(c.queue).Ok? ==>
                  && r == Ok(Some(c.id)) && reps == reps0 - 1
                  && statsCalls == stats0 + [StatsCall(c.id, UndoLog.DailyBucket(c.queue).value, -1)]))
    }

    /** `_undoOp`: roll the open transaction back and clear the record. */
    method UndoOp()
      requires Valid()
      modifies this`undo, db
      ensures Valid() && undo == UndoLog.NoUndo
      ensures db.data == old(db.committed) && db.committed == old(db.committed)
      ensures db.inTrx && db.lastBeginAt == db.data.col.mod && db.mod == old(db.mod)
      ensures db.rollbacks == old(db.rollbacks) + 1 && db.commits == old(db.commits)
    {
      Rollback();
      ClearUndo();
    }

    /** `_undoReview`: pop the newest snapshot, clearing the record once empty; drop the leech tag
        the review added; write the snapshot back; delete its latest review-log entry unless it
        was a preview; unbury its siblings; take the review off the daily counts and `reps`. */
    method UndoReview(now: real, cardConf: CardRow -> DeckConf) returns (r: Result<Option<CardId>>)
      requires Valid() && undo.Review?
      modifies this`undo, this`reps, this`statsCalls, db`data, db`mod
      ensures Valid()
      ensures ReviewUndone(old(undo), now, cardConf, r, old(db.data), old(db.mod), old(Usn()), old(reps), old(statsCalls))
    {
      var wasLeech := undo.wasLeech;
      var popped := UndoLog.PopReview(undo);
      var c := popped.0;
      undo := popped.1;
      if !wasLeech && c.nid !in db.data.notes {
        return Err(NotFound);
      }
      ghost var before := db.data;
      var u := Usn();
      var previewing := Previewing(cardConf(c));
      // remove the leech tag if the note did not have it before the review
      var notes := db.data.notes;
      if !wasLeech && LeechTag in notes[c.nid].tags {
        notes := notes[c.nid := notes[c.nid].(tags := notes[c.nid].tags - {LeechTag})];
      }
      // write the snapshot back
      var cards := db.data.cards[c.id := c];
      // delete the card's latest review-log entry unless it was a preview
      var revlog := db.data.revlog;
      if !previewing {
        var last := LastRevlogId(revlog, c.id);
        revlog := DeleteRevlogId(revlog, last);
      }
      // unbury the note's siblings
      cards := RestoreSiblings(cards, c.nid, IntTime(now, 1), u);
      db.data := db.data.(notes := notes, cards := cards, revlog := revlog);
      db.mod := true;
      assert db.data == RestoreReviewed(before, c, wasLeech, previewing, IntTime(now, 1), u);
      // take the review off the daily counts
      var bucket := UndoLog.DailyBucket(c.queue);
      if bucket.Err? {
        return Err(bucket.error);
      }
      statsCalls := statsCalls + [StatsCall(c.id, bucket.value, -1)];
      reps := reps - 1;
      r := Ok(Some(c.id));
    }

    // ---------------------------------------------------------------- schema gate

    /** `modSchema`: unless the schema already diverged from the last sync, a checked change
        needs the user's confirmation; refused, nothing changes. Otherwise stamp `scm` and save. */
    method ModSchema(check: bool, confirm: bool, now: real) returns (r: Result<()>)
      requires Valid()
      modifies this`undo, this`lastSave, db
      ensures Valid()
      ensures r.Err? <==> old(!SchemaChanged()) && check && !confirm
      ensures r.Err? ==> r.error == AbortSchemaMod && unchanged(this) && unchanged(db)
      ensures r.Ok? ==>
        var stamp := IntTime(now, 1000);
        && db.data == old(db.data).(col := old(db.data.col).(scm := stamp, mod := stamp))
        && db.committed == db.data && !db.mod && db.inTrx && db.lastBeginAt == stamp
        && db.commits == old(db.commits) + 1 && db.rollbacks == old(db.rollbacks)
        && undo == UndoLog.MarkOp(old(undo), None) && lastSave == now
    {
      if !SchemaChanged() && check && !confirm {
        return Err(AbortSchemaMod);
      }
      var stamp := IntTime(now, 1000);
      db.data := db.data.(col := db.data.col.(scm := stamp));
      db.mod := true;
      Save(None, None, true, now);
      r := Ok(());
    }

    /** A configuration write through the backend, which marks the collection modified. */
    method SetConfig(key: string, value: int, now: real)
      modifies db`data
      ensures db.data == old(db.data).(conf := old(db.data.conf)[key := value],
                                        col := old(db.data.col).(mod := IntTime(now, 1000)))
    {
      db.data := db.data.(conf := db.data.conf[key := value], col := db.data.col.(mod := IntTime(now, 1000)));
    }

    /** `changeSchedulerVer`: nothing to do at the current version; an unsupported version is
        refused; otherwise pass the schema gate, clear undo, run the bulk migration towards `ver`
        (`migrate`, whose effect on the tables is not modelled), store the version and load its
        scheduler. */
    method ChangeSchedulerVer(ver: int, confirm: bool, now: real, migrate: (int, Tables) -> Tables)
      returns (r: Result<()>)
      requires Valid()
      modifies this, db
      ensures Valid()
      ensures old(SchedVer()).Err? ==> r == Err(UnsupportedSchedulerVersion) && unchanged(this) && unchanged(db)
      ensures old(SchedVer()) == Ok(ver) ==> r == Ok(()) && unchanged(this) && unchanged(db)
      ensures old(SchedVer()).Ok? && ver !in SupportedSchedulerVersions ==>
        r == Err(UnsupportedSchedulerVersion) && unchanged(this) && unchanged(db)
      ensures old(SchedVer()).Ok? && old(SchedVer()) != Ok(ver) && ver in SupportedSchedulerVersions
              && old(!SchemaChanged()) && !confirm ==>
        r == Err(AbortSchemaMod) && unchanged(this) && unchanged(db)
      ensures old(SchedVer()).Ok? && old(SchedVer()) != Ok(ver) && ver in SupportedSchedulerVersions
              && (old(SchemaChanged()) || confirm) ==>
        var stamp := IntTime(now, 1000);
        var saved := old(db.data).(col := old(db.data.col).(scm := stamp, mod := stamp));
        var migrated := migrate(ver, saved);
        && r == Ok(())
        && db.committed == saved && db.commits == old(db.commits) + 1 && db.rollbacks == old(db.rollbacks)
        && db.data == migrated.(conf := migrated.conf["schedVer" := ver], col := migrated.col.(mod := stamp))
        && db.mod && db.inTrx && db.lastBeginAt == stamp
        && undo == UndoLog.NoUndo && lastSave == now
        && schedVersion == ver && reps == 0 && SchedVer() == Ok(ver)
        && migrations == old(migrations) + [ver]
        && statsCalls == old(statsCalls) && timebox == old(timebox)
    {
      var current := SchedVer();
      if current.Err? {
        return Err(current.error);
      }
      if ver == current.value {
        return Ok(());
      }
      if ver !in SupportedSchedulerVersions {
        return Err(UnsupportedSchedulerVersion);
      }
      r := ModSchema(true, confirm, now);
      if r.Err? {
        return;
      }
      ClearUndo();
      // moveToV1 / moveToV2: a bulk update run through the proxy
      db.data := migrate(ver, db.data);
      db.mod := true;
      migrations := migrations + [ver];
      SetConfig("schedVer", ver, now);
      // _loadScheduler
      schedVersion := ver;
      reps := 0;
      r := Ok(());
    }

    // ---------------------------------------------------------------- counters and rows

    /** `nextID`: the stored counter for `kind` (1 when none), advanced when `inc`. */
    method NextId(kind: string, inc: bool, now: real) returns (id: int)
      modifies db`data
      ensures id == if IdKey(kind) in old(db.data.conf) then old(db.data.conf)[IdKey(kind)] else 1
      ensures inc ==> db.data == old(db.data).(conf := old(db.data.conf)[IdKey(kind) := id + 1],
                                                col := old(db.data.col).(mod := IntTime(now, 1000)))
      ensures !inc ==> db.data == old(db.data)
    {
      var key := IdKey(kind);
      id := if key in db.data.conf then db.data.conf[key] else 1;
      if inc {
        SetConfig(key, id + 1, now);
      }
    }

    /** `_logRem`: one tombstone per deleted id, stamped with the current usn. */
    method LogRem(ids: seq<int>, kind: int)
      modifies db`data, db`mod
      ensures db.data == old(db.data).(graves := old(db.data.graves) + Graves(ids, old(Usn()), kind))
      ensures db.mod
    {
      var u := Usn();
      var i := 0;
      while i < |ids|
        invariant 0 <= i <= |ids|
        invariant db.data == old(db.data).(graves := old(db.data.graves) + Graves(ids[..i], u, kind))
      {
        assert Graves(ids[..i + 1], u, kind) == Graves(ids[..i], u, kind) + [Grave(u, ids[i], kind)];
        db.data := db.data.(graves := db.data.graves + [Grave(u, ids[i], kind)]);
        i := i + 1;
      }
      assert ids[..i] == ids;
      db.mod := true;
    }

    /** `setUserFlag`: set the flag bits of the listed cards; a flag outside 0..7 fails the assert. */
    method SetUserFlag(flag: int, cids: seq<CardId>, now: real) returns (r: Result<()>)
      modifies db`data, db`mod
      ensures r.Err? <==> !(0 <= flag <= 7)
      ensures r.Err? ==> r.error == AssertionError && db.data == old(db.data) && db.mod == old(db.mod)
      ensures r.Ok? ==>
        && db.mod && 0 <= flag <= 7
        && db.data == old(db.data).(cards := SetFlags(old(db.data.cards), cids, flag as bv64, old(Usn()), IntTime(now, 1)))
    {
      if !(0 <= flag <= 7) {
        return Err(AssertionError);
      }
      db.data := db.data.(cards := SetFlags(db.data.cards, cids, flag as bv64, Usn(), IntTime(now, 1)));
      db.mod := true;
      r := Ok(());
    }

    // ---------------------------------------------------------------- timebox

    /** `startTimebox`. */
    method StartTimebox(now: real)
      modifies this`timebox
      ensures timebox == Some(Timebox(now, reps))
    {
      timebox := Some(Timebox(now, reps));
    }

    /** `timeboxReached`: with a non-zero limit (seconds) whose time has run out, the limit and
        the reviews done since the timebox began. */
    function TimeboxReached(now: real): (r: Result<TimeboxOutcome>)
      reads this, db
      ensures "timeLim" !in db.data.conf ==> r == Err(KeyError)
      ensures "timeLim" in db.data.conf && db.data.conf["timeLim"] == 0 ==> r == Ok(NotReached)
      ensures "timeLim" in db.data.conf && db.data.conf["timeLim"] != 0 && timebox.None? ==> r == Err(AttributeError)
      ensures "timeLim" in db.data.conf && db.data.conf["timeLim"] != 0 && timebox.Some? ==>
        r.Ok? && (r.value.Reached? <==> now - timebox.value.startTime > db.data.conf["timeLim"] as real)
      ensures r.Ok? && r.value.Reached? ==>
        && "timeLim" in db.data.conf && timebox.Some?
        && r.value.limit == db.data.conf["timeLim"] != 0
        && now - timebox.value.startTime > r.value.limit as real
        && r.value.reps == reps - timebox.value.startReps
      ensures r == Ok(NotReached) && timebox.Some? && "timeLim" in db.data.conf ==>
        db.data.conf["timeLim"] == 0 || now - timebox.value.startTime <= db.data.conf["timeLim"] as real
    {
      if "timeLim" !in db.data.conf then Err(KeyError)
      else if db.data.conf["timeLim"] == 0 then Ok(NotReached)
      else if timebox.None? then Err(AttributeError)
      else if now - timebox.value.startTime > db.data.conf["timeLim"] as real
      then Ok(Reached(db.data.conf["timeLim"], reps - timebox.value.startReps))
      else Ok(NotReached)
    }
  }
}
