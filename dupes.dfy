/** `findDupes`: among the notes a search matched, the values of one named field that two or more
    notes share, each with the ids of the notes that carry it. */
module Dupes {
  import opened Base
  import opened Text

  /** One row of `select id, mid, flds from notes where id in (...)`. */
  datatype NoteQueryRow = NoteQueryRow(nid: int, mid: int, flds: string)

  /** What the search reads besides the rows: the field names of every note type (by id), the
      field asked for, and the two text helpers it applies (`splitFields`, `stripHTMLMedia`). */
  datatype Query = Query(
    models: map<int, seq<string>>, fieldName: string,
    split: string -> seq<string>, strip: string -> string)

  /** The position of the first field whose name equals `fieldName` ignoring case. */
  function FieldOrd(names: seq<string>, fieldName: string): (r: Option<nat>)
    ensures r.None? <==> forall i :: 0 <= i < |names| ==> Lower(names[i]) != Lower(fieldName)
    ensures r.Some? ==> r.value < |names| && Lower(names[r.value]) == Lower(fieldName)
    ensures r.Some? ==> forall i :: 0 <= i < r.value ==> Lower(names[i]) != Lower(fieldName)
    decreases |names|
  {
    if names == [] then None
    else if Lower(names[0]) == Lower(fieldName) then Some(0)
    else
      var rest := FieldOrd(names[1..], fieldName);
      if rest.None? then None else Some(rest.value + 1)
  }

  /** `ordForMid(mid)`: an unknown note type fails on subscripting None; a note type without the
      field fails on the missing cache key (so the `ord is None` guard after it is never taken). */
  function Ord(models: map<int, seq<string>>, mid: int, fieldName: string): (r: Result<nat>)
    ensures mid !in models ==> r == Err(TypeError)
    ensures mid in models && FieldOrd(models[mid], fieldName).None? ==> r == Err(KeyError)
    ensures r.Ok? <==> mid in models && FieldOrd(models[mid], fieldName).Some?
    ensures r.Ok? ==> Some(r.value) == FieldOrd(models[mid], fieldName)
  {
    if mid !in models then Err(TypeError)
    else
      var o := FieldOrd(models[mid], fieldName);
      if o.None? then Err(KeyError) else Ok(o.value)
  }

  /** The `fields` cache only ever holds positions `ordForMid` would compute. */
  predicate CacheOk(models: map<int, seq<string>>, fieldName: string, cache: map<int, nat>)
  {
    forall m :: m in cache ==> m in models && FieldOrd(models[m], fieldName) == Some(cache[m])
  }

  /** `ordForMid` with its cache: look the note type up once, scan its fields, remember a hit. */
  method OrdForMid(models: map<int, seq<string>>, cache: map<int, nat>, mid: int, fieldName: string)
    returns (r: Result<nat>, cache': map<int, nat>)
    requires CacheOk(models, fieldName, cache)
    ensures r == Ord(models, mid, fieldName)
    ensures CacheOk(models, fieldName, cache')
  {
    cache' := cache;
    if mid !in cache {
      if mid !in models {
        return Err(TypeError), cache';
      }
      var names := models[mid];
      var c := 0;
      while c < |names|
        invariant 0 <= c <= |names|
        invariant forall i :: 0 <= i < c ==> Lower(names[i]) != Lower(fieldName)
        invariant mid !in cache'
        invariant cache' == cache
      {
        if Lower(names[c]) == Lower(fieldName) {
          cache' := cache[mid := c];
          break;
        }
        c := c + 1;
      }
    }
    if mid !in cache' {
      return Err(KeyError), cache';
    }
    r := Ok(cache'[mid]);
  }

  /** What the loop takes from one row: an error, no value (an empty field after stripping, which
      never counts as a duplicate), or the stripped field value. */
  function RowValue(q: Query, row: NoteQueryRow): (r: Result<Option<string>>)
    ensures r.Ok? && r.value.Some? ==> r.value.value != ""
  {
    match Ord(q.models, row.mid, q.fieldName)
    case Err(e) => Err(e)
    case Ok(ord) =>
      var fs := q.split(row.flds);
      if ord >= |fs| then Err(IndexError)
      else
        var v := q.strip(fs[ord]);
        if v == "" then Ok(None) else Ok(Some(v))
  }

  predicate HasValue(q: Query, row: NoteQueryRow, v: string)
  {
    RowValue(q, row) == Ok(Some(v))
  }

  /** The ids of the rows carrying value `v`, in row order: what `vals[v]` holds at the end. */
  function NidsWith(q: Query, rows: seq<NoteQueryRow>, v: string): (r: seq<int>)
    ensures |r| <= |rows|
    ensures forall n :: n in r ==> exists j :: 0 <= j < |rows| && rows[j].nid == n && HasValue(q, rows[j], v)
    ensures forall j :: 0 <= j < |rows| && HasValue(q, rows[j], v) ==> rows[j].nid in r
    decreases |rows|
  {
    if rows == [] then []
    else
      var init := rows[..|rows| - 1];
      var last := rows[|rows| - 1];
      var rest := NidsWith(q, init, v);
      assert forall j :: 0 <= j < |init| ==> init[j] == rows[j];
      if HasValue(q, last, v) then rest + [last.nid] else rest
  }

  /** The shared values in the order they reach their second note: the order of `dupes`. */
  function DupeOrder(q: Query, rows: seq<NoteQueryRow>): seq<string>
    decreases |rows|
  {
    if rows == [] then []
    else
      var init := rows[..|rows| - 1];
      var last := rows[|rows| - 1];
      var rest := DupeOrder(q, init);
      if RowValue(q, last).Ok? && RowValue(q, last).value.Some?
         && |NidsWith(q, rows, RowValue(q, last).value.value)| == 2
      then rest + [RowValue(q, last).value.value]
      else rest
  }

  /** The search's answer: each shared value with every note that carries it. */
  function Dupes(q: Query, rows: seq<NoteQueryRow>): (d: seq<(string, seq<int>)>)
    ensures |d| == |DupeOrder(q, rows)|
    ensures forall k :: 0 <= k < |d| ==> d[k] == (DupeOrder(q, rows)[k], NidsWith(q, rows, DupeOrder(q, rows)[k]))
  {
    var order := DupeOrder(q, rows);
    seq(|order|, k requires 0 <= k < |order| => (order[k], NidsWith(q, rows, order[k])))
  }

  /** A row beyond the prefix either carries `v`, adding its note, or leaves the notes of `v` alone. */
  lemma NidsWithSnoc(q: Query, rows: seq<NoteQueryRow>, i: nat, v: string)
    requires i < |rows|
    ensures NidsWith(q, rows[..i + 1], v)
         == NidsWith(q, rows[..i], v) + (if HasValue(q, rows[i], v) then [rows[i].nid] else [])
  {
    assert rows[..i + 1][..i] == rows[..i];
  }

  /** Every value listed is non-empty and carried by at least two of the notes. */
  lemma {:induction false} DupeOrderSound(q: Query, rows: seq<NoteQueryRow>)
    ensures forall v :: v in DupeOrder(q, rows) ==> v != "" && |NidsWith(q, rows, v)| >= 2
    decreases |rows|
  {
    if rows != [] {
      var init := rows[..|rows| - 1];
      DupeOrderSound(q, init);
      forall v | v in DupeOrder(q, rows)
        ensures v != "" && |NidsWith(q, rows, v)| >= 2
      {
        NidsWithSnoc(q, rows, |rows| - 1, v);
        assert rows[..|rows|] == rows;
      }
    }
  }

  /** Every value that two or more of the notes carry is listed. */
  lemma {:induction false} DupeOrderComplete(q: Query, rows: seq<NoteQueryRow>, v: string)
    requires |NidsWith(q, rows, v)| >= 2
    ensures v in DupeOrder(q, rows)
    decreases |rows|
  {
    var init := rows[..|rows| - 1];
    var last := rows[|rows| - 1];
    NidsWithSnoc(q, rows, |rows| - 1, v);
    assert rows[..|rows|] == rows;
    if |NidsWith(q, init, v)| >= 2 {
      DupeOrderComplete(q, init, v);
    } else {
      assert HasValue(q, last, v);
    }
  }

  /** No value is listed twice. */
  lemma {:induction false} DupeOrderDistinct(q: Query, rows: seq<NoteQueryRow>)
    ensures forall a, b :: 0 <= a < b < |DupeOrder(q, rows)| ==> DupeOrder(q, rows)[a] != DupeOrder(q, rows)[b]
    decreases |rows|
  {
    if rows != [] {
      var init := rows[..|rows| - 1];
      var last := rows[|rows| - 1];
      DupeOrderDistinct(q, init);
      DupeOrderSound(q, init);
      if RowValue(q, last).Ok? && RowValue(q, last).value.Some? {
        var v := RowValue(q, last).value.value;
        NidsWithSnoc(q, rows, |rows| - 1, v);
        assert rows[..|rows|] == rows;
        if |NidsWith(q, rows, v)| == 2 {
          assert v !in DupeOrder(q, init);
        }
      }
    }
  }

  /** The answer lists exactly the shared values, once each, each with all of its notes. */
  lemma DupesCharacterised(q: Query, rows: seq<NoteQueryRow>, v: string)
    ensures (exists k :: 0 <= k < |Dupes(q, rows)| && Dupes(q, rows)[k].0 == v)
        <==> |NidsWith(q, rows, v)| >= 2
    ensures forall k :: 0 <= k < |Dupes(q, rows)| && Dupes(q, rows)[k].0 == v ==>
      Dupes(q, rows)[k].1 == NidsWith(q, rows, v) && v != ""
    ensures forall a, b :: 0 <= a < b < |Dupes(q, rows)| ==> Dupes(q, rows)[a].0 != Dupes(q, rows)[b].0
  {
    DupeOrderSound(q, rows);
    DupeOrderDistinct(q, rows);
    if |NidsWith(q, rows, v)| >= 2 {
      DupeOrderComplete(q, rows, v);
      var k :| 0 <= k < |DupeOrder(q, rows)| && DupeOrder(q, rows)[k] == v;
      assert Dupes(q, rows)[k].0 == v;
    }
    forall k | 0 <= k < |Dupes(q, rows)| && Dupes(q, rows)[k].0 == v
      ensures |NidsWith(q, rows, v)| >= 2
    {
      assert DupeOrder(q, rows)[k] in DupeOrder(q, rows);
    }
  }

  /** What the loop keeps after a prefix of the rows: `vals` maps each value seen to its notes so
      far, and `dupes` lists the values that have reached a second note. */
  ghost predicate Scanned(q: Query, prefix: seq<NoteQueryRow>, vals: map<string, seq<int>>, order: seq<string>)
  {
    && (forall v :: v in vals ==> vals[v] == NidsWith(q, prefix, v))
    && (forall v :: |NidsWith(q, prefix, v)| > 0 ==> v in vals)
    && order == DupeOrder(q, prefix)
  }

  /** One pass of the loop body over a row whose value is `val` keeps `Scanned`. */
  lemma ScanStep(q: Query, rows: seq<NoteQueryRow>, i: nat, vals: map<string, seq<int>>, order: seq<string>,
                 val: Option<string>, vals': map<string, seq<int>>, order': seq<string>)
    requires i < |rows| && Scanned(q, rows[..i], vals, order)
    requires RowValue(q, rows[i]) == Ok(val)
    requires val.None? ==> vals' == vals && order' == order
    requires val.Some? ==>
      && vals' == vals[val.value := (if val.value in vals then vals[val.value] else []) + [rows[i].nid]]
      && order' == if |vals'[val.value]| == 2 then order + [val.value] else order
    ensures Scanned(q, rows[..i + 1], vals', order')
  {
    forall w
      ensures NidsWith(q, rows[..i + 1], w)
           == NidsWith(q, rows[..i], w) + (if HasValue(q, rows[i], w) then [rows[i].nid] else [])
    {
      NidsWithSnoc(q, rows, i, w);
    }
    assert rows[..i + 1][..i] == rows[..i];
    assert rows[..i + 1][i] == rows[i];
  }

  /** The loop body up to the value: split the fields, pick the named one, strip it. */
  method ReadRow(q: Query, cache: map<int, nat>, row: NoteQueryRow)
    returns (val: Result<Option<string>>, cache': map<int, nat>)
    requires CacheOk(q.models, q.fieldName, cache)
    ensures val == RowValue(q, row)
    ensures CacheOk(q.models, q.fieldName, cache')
  {
    var ord;
    ord, cache' := OrdForMid(q.models, cache, row.mid, q.fieldName);
    if ord.Err? {
      return Err(ord.error), cache';
    }
    var fs := q.split(row.flds);
    if ord.value >= |fs| {
      return Err(IndexError), cache';
    }
    var v := q.strip(fs[ord.value]);
    val := if v == "" then Ok(None) else Ok(Some(v));
  }

  /** The rest of the loop body: `vals.setdefault(val, []).append(nid)`, and a value reaching its
      second note joins `dupes`. */
  method Record(q: Query, rows: seq<NoteQueryRow>, i: nat, vals: map<string, seq<int>>, order: seq<string>,
                val: Option<string>)
    returns (vals': map<string, seq<int>>, order': seq<string>)
    requires i < |rows| && Scanned(q, rows[..i], vals, order)
    requires RowValue(q, rows[i]) == Ok(val)
    ensures Scanned(q, rows[..i + 1], vals', order')
  {
    vals', order' := vals, order;
    if val.Some? {
      var v := val.value;
      var nids := if v in vals then vals[v] else [];
      vals' := vals[v := nids + [rows[i].nid]];
      if |vals'[v]| == 2 {
        order' := order + [v];
      }
    }
    ScanStep(q, rows, i, vals, order, val, vals', order');
  }

  /** `findDupes` over the rows the search returned: the first failing row's exception, or the
      shared values in the order they reach their second note, each with all of its notes. */
  method FindDupes(q: Query, rows: seq<NoteQueryRow>) returns (r: Result<seq<(string, seq<int>)>>)
    ensures r.Err? <==> exists j :: 0 <= j < |rows| && RowValue(q, rows[j]).Err?
    ensures r.Err? ==> exists j :: 0 <= j < |rows| && RowValue(q, rows[j]) == Err(r.error)
                                && forall k :: 0 <= k < j ==> RowValue(q, rows[k]).Ok?
    ensures r.Ok? ==> r.value == Dupes(q, rows)
  {
    var vals: map<string, seq<int>> := map[];
    var order: seq<string> := [];
    var cache: map<int, nat> := map[];
    var i := 0;
    while i < |rows|
      invariant 0 <= i <= |rows|
      invariant forall k :: 0 <= k < i ==> RowValue(q, rows[k]).Ok?
      invariant CacheOk(q.models, q.fieldName, cache)
      invariant Scanned(q, rows[..i], vals, order)
    {
      var val;
      val, cache := ReadRow(q, cache, rows[i]);
      if val.Err? {
        return Err(val.error);
      }
      vals, order := Record(q, rows, i, vals, order, val.value);
      i := i + 1;
    }
    assert rows[..i] == rows;
    DupeOrderSound(q, rows);
    r := Ok(seq(|order|, k requires 0 <= k < |order| => (order[k], vals[order[k]])));
  }
}
