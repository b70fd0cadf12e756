/** Decoding of the Monitors tab (`read_monitors`, after the Sheets API call):
    a grid of cell strings whose first row holds the headers becomes the list
    of active monitor records, each with its 1-based sheet row number. */
module SheetRows {

  import opened Values
  import opened Text

  const ActiveKey: string := "Active"
  const RowNumKey: string := "_row_num"

  /** One monitor row: the header row, the row's own cells and its sheet row
      number (the `_row_num` entry of the source's dict, which replaces any
      cell whose header is `_row_num`). The dict itself is `Fields`; lookups
      go through `Get`, which finds the same cell without building it. */
  datatype Monitor = Monitor(headers: seq<string>, cells: seq<string>, rowNum: int)

  /** `row[j] if j < len(row) else ""`. */
  function CellAt(row: seq<string>, j: nat): string
  {
    if j < |row| then row[j] else ""
  }

  /** The dict comprehension over the first `n` headers: later columns with a
      repeated header overwrite earlier ones. */
  function RowRecord(headers: seq<string>, row: seq<string>, n: nat): map<string, string>
    requires n <= |headers|
  {
    if n == 0 then map[]
    else RowRecord(headers, row, n - 1)[headers[n - 1] := CellAt(row, n - 1)]
  }

  /** The record of one data row at sheet row `rowNum`. */
  function Decode(headers: seq<string>, row: seq<string>, rowNum: int): Monitor
  {
    Monitor(headers, row, rowNum)
  }

  /** The header-keyed cells of the row's dict (its `_row_num` entry is
      `rowNum`, kept apart). */
  function Fields(m: Monitor): map<string, string>
  {
    RowRecord(m.headers, m.cells, |m.headers|) - {RowNumKey}
  }

  /** The cell under the last of the first `n` columns headed `key`. */
  function LookUp(headers: seq<string>, cells: seq<string>, key: string, n: nat): Option<string>
    requires n <= |headers|
  {
    if n == 0 then None
    else if headers[n - 1] == key then Some(CellAt(cells, n - 1))
    else LookUp(headers, cells, key, n - 1)
  }

  /** The search finds exactly what the dict comprehension stores. */
  lemma {:induction false} LookUpRecord(headers: seq<string>, cells: seq<string>, key: string, n: nat)
    requires n <= |headers|
    ensures LookUp(headers, cells, key, n).Some? <==> key in RowRecord(headers, cells, n)
    ensures LookUp(headers, cells, key, n).Some? ==>
      LookUp(headers, cells, key, n).value == RowRecord(headers, cells, n)[key]
  {
    if n > 0 {
      LookUpRecord(headers, cells, key, n - 1);
    }
  }

  /** The keys of the comprehension over the first `n` headers are exactly
      those headers. */
  lemma {:induction false} RowRecordKeys(headers: seq<string>, row: seq<string>, n: nat)
    requires n <= |headers|
    ensures forall j :: 0 <= j < n ==> headers[j] in RowRecord(headers, row, n)
    ensures forall h :: h in RowRecord(headers, row, n) ==> exists j :: 0 <= j < n && headers[j] == h
  {
    if n > 0 {
      RowRecordKeys(headers, row, n - 1);
    }
  }

  /** A header maps to the cell under its last column among the first `n`. */
  lemma {:induction false} RowRecordValues(headers: seq<string>, row: seq<string>, n: nat)
    requires n <= |headers|
    ensures forall j :: 0 <= j < n && LastColumn(headers, j, n) ==>
      headers[j] in RowRecord(headers, row, n) && RowRecord(headers, row, n)[headers[j]] == CellAt(row, j)
  {
    if n > 0 {
      RowRecordValues(headers, row, n - 1);
      var prev := RowRecord(headers, row, n - 1);
      var rec := RowRecord(headers, row, n);
      assert rec == prev[headers[n - 1] := CellAt(row, n - 1)];
      forall j | 0 <= j < n && LastColumn(headers, j, n)
        ensures headers[j] in rec && rec[headers[j]] == CellAt(row, j)
      {
        if j < n - 1 {
          assert headers[n - 1] != headers[j];
          assert LastColumn(headers, j, n - 1);
        }
      }
    }
  }

  /** Column `j` is the last of the first `n` with its header. */
  predicate LastColumn(headers: seq<string>, j: nat, n: nat)
    requires j < n <= |headers|
  {
    forall k :: j < k < n ==> headers[k] != headers[j]
  }

  /** A decoded row has every header except `_row_num` as a key; a header
      maps to the cell under its last column, or to "" when the row is
      shorter; the row number is the one given. */
  lemma DecodeFields(headers: seq<string>, row: seq<string>, rowNum: int)
    ensures Decode(headers, row, rowNum).rowNum == rowNum
    ensures forall j :: 0 <= j < |headers| && headers[j] != RowNumKey ==>
      headers[j] in Fields(Decode(headers, row, rowNum))
    ensures forall h :: h in Fields(Decode(headers, row, rowNum)) ==>
      h != RowNumKey && exists j :: 0 <= j < |headers| && headers[j] == h
    ensures forall j :: 0 <= j < |headers| && headers[j] != RowNumKey && LastColumn(headers, j, |headers|) ==>
      Fields(Decode(headers, row, rowNum))[headers[j]] == CellAt(row, j)
  {
    RowRecordKeys(headers, row, |headers|);
    RowRecordValues(headers, row, |headers|);
  }

  /** `row_dict.get(key, "")` for a key other than `_row_num`. */
  function Get(m: Monitor, key: string): string
  {
    match LookUp(m.headers, m.cells, key, |m.headers|)
    case Some(c) => c
    case None => ""
  }

  /** `Get` reads the dict: the field's value when the key is present, ""
      otherwise. */
  lemma GetReadsFields(m: Monitor, key: string)
    requires key != RowNumKey
    ensures key in Fields(m) ==> Get(m, key) == Fields(m)[key]
    ensures key !in Fields(m) ==> Get(m, key) == ""
  {
    LookUpRecord(m.headers, m.cells, key, |m.headers|);
  }

  /** `row_dict.get("Active", "").strip().upper() == "YES"`. */
  predicate IsActive(m: Monitor)
  {
    Upper(Strip(Get(m, ActiveKey))) == "YES"
  }

  /** The word "yes" in any mix of cases (U+017F counts as an `s`, as it does
      for Python's `upper`). */
  predicate YesWord(w: string)
  {
    && |w| == 3
    && (w[0] == 'y' || w[0] == 'Y')
    && (w[1] == 'e' || w[1] == 'E')
    && (w[2] == 's' || w[2] == 'S' || w[2] == '\U{017F}')
  }

  /** `s[i..j]` is a yes-word and everything around it is whitespace. */
  predicate PaddedYes(s: string, i: nat, j: nat)
  {
    i <= j <= |s| && AllSpace(s[..i]) && AllSpace(s[j..]) && YesWord(s[i..j])
  }

  /** The Active test accepts exactly a yes-word surrounded by whitespace. */
  lemma ActiveIffPaddedYes(s: string)
    ensures Upper(Strip(s)) == "YES" <==> exists i: nat, j: nat :: PaddedYes(s, i, j)
  {
    if Upper(Strip(s)) == "YES" {
      StrippedYesPadded(s);
    }
    if exists i: nat, j: nat :: PaddedYes(s, i, j) {
      var a: nat, b: nat :| PaddedYes(s, a, b);
      PaddedYesStrips(s, a, b);
    }
  }

  lemma StrippedYesPadded(s: string)
    requires Upper(Strip(s)) == "YES"
    ensures PaddedYes(s, StripOffset(s), StripOffset(s) + 3)
  {
    StripBounds(s);
    var r := Strip(s);
    UpperSpec(r);
    assert YesWord(r) by {
      assert UpperChar(r[0]) == 'Y' && UpperChar(r[1]) == 'E' && UpperChar(r[2]) == 'S';
    }
  }

  lemma PaddedYesStrips(s: string, a: nat, b: nat)
    requires PaddedYes(s, a, b)
    ensures Upper(Strip(s)) == "YES"
  {
    var w := s[a..b];
    assert s == s[..a] + w + s[b..];
    StripPadded(s[..a], w, s[b..]);
    UpperSpec(w);
  }

  /** Every data row decoded; `rows[i]` is sheet row `i + 2`. */
  function DecodeRows(headers: seq<string>, rows: seq<seq<string>>): (ms: seq<Monitor>)
    ensures |ms| == |rows|
    ensures forall i :: 0 <= i < |rows| ==> ms[i] == Decode(headers, rows[i], i + 2)
  {
    seq(|rows|, i requires 0 <= i < |rows| => Decode(headers, rows[i], i + 2))
  }

  /** The active monitors of `ms`, in order. */
  function KeepActive(ms: seq<Monitor>): seq<Monitor>
  {
    if ms == [] then []
    else KeepActive(ms[..|ms| - 1]) + (if IsActive(ms[|ms| - 1]) then [ms[|ms| - 1]] else [])
  }

  /** Filtering one more row appends it when it is active. */
  lemma KeepActiveSnoc(ms: seq<Monitor>, m: Monitor)
    ensures KeepActive(ms + [m]) == KeepActive(ms) + (if IsActive(m) then [m] else [])
  {
    assert (ms + [m])[..|ms|] == ms;
  }

  /** What `read_monitors` returns for the grid `values`. */
  function ActiveMonitors(values: seq<seq<string>>): seq<Monitor>
  {
    if |values| <= 1 then [] else KeepActive(DecodeRows(values[0], values[1..]))
  }

  /** `read_monitors` after the API call: one decoded record per data row,
      kept when its Active cell says yes. */
  method ReadMonitors(values: seq<seq<string>>) returns (monitors: seq<Monitor>)
    ensures monitors == ActiveMonitors(values)
    ensures forall k :: 0 <= k < |monitors| ==> IsActive(monitors[k])
  {
    if |values| <= 1 {
      return [];
    }
    var headers := values[0];
    monitors := [];
    var i := 1;
    while i < |values|
      invariant 1 <= i <= |values|
      invariant monitors == KeepActive(DecodeRows(headers, values[1..i]))
      invariant forall k :: 0 <= k < |monitors| ==> IsActive(monitors[k])
    {
      var m := Decode(headers, values[i], i + 1);
      ghost var done := DecodeRows(headers, values[1..i]);
      assert DecodeRows(headers, values[1..i + 1]) == done + [m];
      KeepActiveSnoc(done, m);
      if IsActive(m) {
        monitors := monitors + [m];
      }
      i := i + 1;
    }
    assert values[1..i] == values[1..];
  }

  /** Every kept monitor is an active one, found at its row number. */
  lemma {:induction false} KeepActiveSound(ms: seq<Monitor>)
    requires forall i :: 0 <= i < |ms| ==> ms[i].rowNum == i + 2
    ensures forall k :: 0 <= k < |KeepActive(ms)| ==>
      var m := KeepActive(ms)[k];
      2 <= m.rowNum <= |ms| + 1 && ms[m.rowNum - 2] == m && IsActive(m)
  {
    if ms != [] {
      var init := ms[..|ms| - 1];
      var last := ms[|ms| - 1];
      KeepActiveSound(init);
      var p := KeepActive(init);
      var r := KeepActive(ms);
      assert r == p + (if IsActive(last) then [last] else []);
      forall k | 0 <= k < |r|
        ensures 2 <= r[k].rowNum <= |ms| + 1 && ms[r[k].rowNum - 2] == r[k] && IsActive(r[k])
      {
        if k < |p| {
          assert r[k] == p[k];
          assert init[p[k].rowNum - 2] == ms[p[k].rowNum - 2];
        } else {
          assert r[k] == last;
        }
      }
    }
  }

  /** Kept monitors keep their order. */
  lemma {:induction false} KeepActiveOrdered(ms: seq<Monitor>)
    requires forall i :: 0 <= i < |ms| ==> ms[i].rowNum == i + 2
    ensures forall k, l :: 0 <= k < l < |KeepActive(ms)| ==>
      KeepActive(ms)[k].rowNum < KeepActive(ms)[l].rowNum
  {
    if ms != [] {
      var init := ms[..|ms| - 1];
      KeepActiveOrdered(init);
      KeepActiveSound(init);
    }
  }

  /** Some monitor of `ms` has row number `rowNum`. */
  predicate KeptRow(ms: seq<Monitor>, rowNum: int)
  {
    exists k :: 0 <= k < |ms| && ms[k].rowNum == rowNum
  }

  /** No active monitor is dropped. */
  lemma {:induction false} KeepActiveComplete(ms: seq<Monitor>)
    requires forall i :: 0 <= i < |ms| ==> ms[i].rowNum == i + 2
    ensures forall i :: 0 <= i < |ms| && IsActive(ms[i]) ==> KeptRow(KeepActive(ms), i + 2)
  {
    if ms != [] {
      var init := ms[..|ms| - 1];
      KeepActiveComplete(init);
      var p := KeepActive(init);
      var r := KeepActive(ms);
      assert r == p + (if IsActive(ms[|ms| - 1]) then [ms[|ms| - 1]] else []);
      forall i | 0 <= i < |ms| && IsActive(ms[i])
        ensures KeptRow(r, i + 2)
      {
        if i < |init| {
          assert init[i] == ms[i];
          var k :| 0 <= k < |p| && p[k].rowNum == i + 2;
          assert r[k] == p[k];
        } else {
          assert r[|r| - 1] == ms[i];
        }
      }
    }
  }

  /** `read_monitors` in terms of the grid: no data row gives no monitor;
      otherwise each monitor is the decoded active data row
      `values[rowNum - 1]`. */
  lemma ActiveMonitorsSound(values: seq<seq<string>>)
    ensures |values| <= 1 ==> ActiveMonitors(values) == []
    ensures forall k :: 0 <= k < |ActiveMonitors(values)| ==>
      var m := ActiveMonitors(values)[k];
      && 2 <= m.rowNum <= |values|
      && m == Decode(values[0], values[m.rowNum - 1], m.rowNum)
      && IsActive(m)
  {
    forall k | 0 <= k < |ActiveMonitors(values)|
      ensures 2 <= ActiveMonitors(values)[k].rowNum <= |values|
      ensures ActiveMonitors(values)[k] ==
        Decode(values[0], values[ActiveMonitors(values)[k].rowNum - 1], ActiveMonitors(values)[k].rowNum)
      ensures IsActive(ActiveMonitors(values)[k])
    {
      ActiveMonitorAt(values, k);
    }
  }

  lemma ActiveMonitorAt(values: seq<seq<string>>, k: nat)
    requires k < |ActiveMonitors(values)|
    ensures 2 <= ActiveMonitors(values)[k].rowNum <= |values|
    ensures ActiveMonitors(values)[k] ==
      Decode(values[0], values[ActiveMonitors(values)[k].rowNum - 1], ActiveMonitors(values)[k].rowNum)
    ensures IsActive(ActiveMonitors(values)[k])
  {
    var ms := DecodeRows(values[0], values[1..]);
    KeptAt(ms, k);
    var n := ActiveMonitors(values)[k].rowNum;
    assert values[1..][n - 2] == values[n - 1];
  }

  /** The `k`-th kept monitor is the active one at its row number. */
  lemma KeptAt(ms: seq<Monitor>, k: nat)
    requires forall i :: 0 <= i < |ms| ==> ms[i].rowNum == i + 2
    requires k < |KeepActive(ms)|
    ensures 2 <= KeepActive(ms)[k].rowNum <= |ms| + 1
    ensures ms[KeepActive(ms)[k].rowNum - 2] == KeepActive(ms)[k]
    ensures IsActive(KeepActive(ms)[k])
  {
    KeepActiveSound(ms);
  }

  /** The monitors come in increasing row order. */
  lemma ActiveMonitorsOrdered(values: seq<seq<string>>)
    ensures forall k, l :: 0 <= k < l < |ActiveMonitors(values)| ==>
      ActiveMonitors(values)[k].rowNum < ActiveMonitors(values)[l].rowNum
  {
    if |values| > 1 {
      KeepActiveOrdered(DecodeRows(values[0], values[1..]));
    }
  }

  /** No data row whose Active cell says yes is missed. */
  lemma ActiveMonitorsComplete(values: seq<seq<string>>)
    ensures forall i :: 1 <= i < |values| && IsActive(Decode(values[0], values[i], i + 1)) ==>
      KeptRow(ActiveMonitors(values), i + 1)
  {
    if |values| > 1 {
      var ms := DecodeRows(values[0], values[1..]);
      KeepActiveComplete(ms);
      forall i | 1 <= i < |values| && IsActive(Decode(values[0], values[i], i + 1))
        ensures KeptRow(ActiveMonitors(values), i + 1)
      {
        assert ms[i - 1] == Decode(values[0], values[i], i + 1);
      }
    }
  }
}
