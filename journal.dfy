/**
 * The journal operations of src/services/app.ts: setting a trade's status
 * (which may fill in its realized profit/loss), editing the realized
 * profit/loss, deleting by id, and importing a CSV file whose rows are
 * merged into the journal by id.
 *
 * The journal is one list of entries. The source keeps it twice, in local
 * storage and in `journalStore`, and writes both together; the model keeps
 * a single field.
 */
module Journal {
  import opened Common
  import opened Types
  import opened Utils
  import opened TradeStore

  // ---------------------------------------------------------------------
  // Ids
  // ---------------------------------------------------------------------

  /** The ids of the entries, in order. */
  function Ids(es: seq<JournalEntry>): (ids: seq<int>)
    ensures |ids| == |es|
    ensures forall i :: 0 <= i < |es| ==> ids[i] == es[i].id
  {
    if es == [] then [] else Ids(es[..|es| - 1]) + [es[|es| - 1].id]
  }

  /** No two entries share an id. */
  predicate UniqueIds(es: seq<JournalEntry>)
  {
    forall i, j :: 0 <= i < j < |es| ==> es[i].id != es[j].id
  }

  /** A journal with the ids of one whose ids are distinct has distinct ids. */
  lemma SameIdsUnique(es: seq<JournalEntry>, r: seq<JournalEntry>)
    requires UniqueIds(es) && Ids(r) == Ids(es)
    ensures UniqueIds(r)
  {
    forall i, j | 0 <= i < j < |r| ensures r[i].id != r[j].id {
      assert r[i].id == Ids(r)[i] && r[j].id == Ids(r)[j];
    }
  }

  /** `findIndex(t => t.id == id)`: the first entry with the id, or -1. */
  function IndexOfId(es: seq<JournalEntry>, id: int): (k: int)
    ensures -1 <= k < |es|
    ensures k >= 0 ==> es[k].id == id
    ensures forall j :: 0 <= j < |es| && (k < 0 || j < k) ==> es[j].id != id
  {
    if es == [] then -1
    else
      var k := IndexOfId(es[..|es| - 1], id);
      if k >= 0 then k else if es[|es| - 1].id == id then |es| - 1 else -1
  }

  // ---------------------------------------------------------------------
  // Status and realized profit/loss
  // ---------------------------------------------------------------------

  /**
   * The entry once its status is `s`. A realized profit/loss that is
   * present is kept. A missing one is filled in on 'Won' with the total
   * net profit (a decimal.js value is an object, so even a zero profit is
   * used) and on 'Lost' with the negated net loss, if the entry has one.
   */
  function WithStatus(e: JournalEntry, s: Status): (r: JournalEntry)
    ensures r.status == s && r.(status := e.status, realizedPnl := e.realizedPnl) == e
    ensures e.realizedPnl.Some? ==> r.realizedPnl == e.realizedPnl
    ensures s != Won && s != Lost ==> r.realizedPnl == e.realizedPnl
    ensures e.realizedPnl.None? && s == Won ==> r.realizedPnl == Some(e.totalNetProfit)
    ensures e.realizedPnl.None? && s == Lost ==> r.realizedPnl == if e.netLoss.Some? then Some(-e.netLoss.value) else None
  {
    var pnl :=
      match (e.realizedPnl, s)
      case (None, Won) => Some(e.totalNetProfit)
      case (None, Lost) => if e.netLoss.Some? then Some(-e.netLoss.value) else None
      case _ => e.realizedPnl;
    e.(status := s, realizedPnl := pnl)
  }

  /**
   * The journal after `updateTradeStatus(id, s)`: the first entry with the
   * id takes the status; nothing happens when no entry has it.
   */
  function UpdatedStatus(es: seq<JournalEntry>, id: int, s: Status): (r: seq<JournalEntry>)
    ensures |r| == |es| && Ids(r) == Ids(es)
    ensures forall i :: 0 <= i < |es| && i != IndexOfId(es, id) ==> r[i] == es[i]
    ensures IndexOfId(es, id) >= 0 ==> r[IndexOfId(es, id)] == WithStatus(es[IndexOfId(es, id)], s)
    ensures forall i :: 0 <= i < |es| && es[i].realizedPnl.Some? ==> r[i].realizedPnl == es[i].realizedPnl
  {
    var k := IndexOfId(es, id);
    if k < 0 then es else es[k := WithStatus(es[k], s)]
  }

  /** What an edit of the realized profit/loss asks for. */
  datatype PnlEdit = Clear | SetTo(value: real) | Rejected

  /**
   * The edit `updateRealizedPnl` makes of its text: a missing or blank text
   * clears the value, any other text is read by `decimalOf`, which stands
   * for the decimal.js constructor and gives `None` where it throws.
   */
  function PnlEditOf(pnl: Option<string>, decimalOf: string -> Option<real>): (r: PnlEdit)
    ensures r == Clear <==> pnl.None? || Trim(pnl.value) == ""
    ensures r == Rejected <==> pnl.Some? && Trim(pnl.value) != "" && decimalOf(pnl.value).None?
    ensures r.SetTo? ==> pnl.Some? && decimalOf(pnl.value) == Some(r.value)
  {
    if pnl.None? || Trim(pnl.value) == "" then Clear
    else match decimalOf(pnl.value)
      case None => Rejected
      case Some(v) => SetTo(v)
  }

  /** The journal after an edit of the realized profit/loss of the first entry with the id. */
  function PnlEdited(es: seq<JournalEntry>, id: int, edit: PnlEdit): (r: seq<JournalEntry>)
    ensures |r| == |es| && Ids(r) == Ids(es)
    ensures forall i :: 0 <= i < |es| ==> r[i] == es[i].(realizedPnl := r[i].realizedPnl)
    ensures forall i :: 0 <= i < |es| && (i != IndexOfId(es, id) || edit == Rejected) ==> r[i] == es[i]
    ensures IndexOfId(es, id) >= 0 && edit == Clear ==> r[IndexOfId(es, id)].realizedPnl == None
    ensures IndexOfId(es, id) >= 0 && edit.SetTo? ==> r[IndexOfId(es, id)].realizedPnl == Some(edit.value)
  {
    var k := IndexOfId(es, id);
    if k < 0 then es
    else match edit
      case Clear => es[k := es[k].(realizedPnl := None)]
      case SetTo(v) => es[k := es[k].(realizedPnl := Some(v))]
      case Rejected => es
  }

  // ---------------------------------------------------------------------
  // Deletion
  // ---------------------------------------------------------------------

  /** `filter(t => t.id != id)`. */
  function WithoutId(es: seq<JournalEntry>, id: int): (r: seq<JournalEntry>)
    ensures |r| <= |es|
    ensures forall e :: e in r <==> e in es && e.id != id
  {
    if es == [] then [] else (if es[0].id == id then [] else [es[0]]) + WithoutId(es[1..], id)
  }

  /** Deleting keeps the ids distinct. */
  lemma {:induction false} WithoutIdUnique(es: seq<JournalEntry>, id: int)
    requires UniqueIds(es)
    ensures UniqueIds(WithoutId(es, id))
  {
    if es != [] {
      var rest := WithoutId(es[1..], id);
      UniqueTail(es);
      WithoutIdUnique(es[1..], id);
      if es[0].id != id {
        UniqueCons(es[0], rest);
      } else {
        assert WithoutId(es, id) == rest;
      }
    }
  }

  /** The tail of a journal with distinct ids has distinct ids, none of them the head's. */
  lemma UniqueTail(es: seq<JournalEntry>)
    requires es != [] && UniqueIds(es)
    ensures UniqueIds(es[1..])
    ensures forall e :: e in es[1..] ==> e.id != es[0].id
  {
    forall i, j | 0 <= i < j < |es[1..]| ensures es[1..][i].id != es[1..][j].id {
      assert es[1..][i] == es[i + 1] && es[1..][j] == es[j + 1];
    }
    forall e | e in es[1..] ensures e.id != es[0].id {
      var m :| 0 <= m < |es[1..]| && es[1..][m] == e;
      assert es[m + 1] == e;
    }
  }

  /** An entry whose id is new, put in front of a journal with distinct ids, keeps them distinct. */
  lemma UniqueCons(e: JournalEntry, rest: seq<JournalEntry>)
    requires UniqueIds(rest)
    requires forall x :: x in rest ==> x.id != e.id
    ensures UniqueIds([e] + rest)
  {
    var r := [e] + rest;
    forall i, j | 0 <= i < j < |r| ensures r[i].id != r[j].id {
      if i == 0 {
        assert r[j] == rest[j - 1];
      } else {
        assert r[i] == rest[i - 1] && r[j] == rest[j - 1];
      }
    }
  }

  /** Deleting an id twice is deleting it once. */
  lemma {:induction false} WithoutIdIdempotent(es: seq<JournalEntry>, id: int)
    ensures WithoutId(WithoutId(es, id), id) == WithoutId(es, id)
  {
    if es != [] {
      WithoutIdIdempotent(es[1..], id);
      var rest := WithoutId(es[1..], id);
      if es[0].id != id {
        var r := [es[0]] + rest;
        assert r[0] == es[0] && r[1..] == rest;
        assert WithoutId(r, id) == [es[0]] + WithoutId(rest, id);
        assert WithoutId(es, id) == r;
      } else {
        assert WithoutId(es, id) == [] + rest == rest;
      }
    }
  }

  // ---------------------------------------------------------------------
  // CSV text
  // ---------------------------------------------------------------------

  /** `s.split(c)` with a one-character separator. */
  function Split(s: string, c: char): (ps: seq<string>)
    ensures |ps| >= 1
    ensures forall i :: 0 <= i < |ps| ==> c !in ps[i]
    decreases |s|
  {
    var i := IndexOf(s, c);
    if i < 0 then [s]
    else
      var rest := Split(s[i + 1..], c);
      assert forall j :: 1 <= j < |rest| + 1 ==> ([s[..i]] + rest)[j] == rest[j - 1];
      [s[..i]] + rest
  }

  /** `ps.join(c)`, as the CSV export writes its lines and cells. */
  function Join(ps: seq<string>, c: char): string
  {
    if |ps| == 0 then "" else if |ps| == 1 then ps[0] else ps[0] + [c] + Join(ps[1..], c)
  }

  /** Splitting then joining gives the text back. */
  lemma {:induction false} JoinSplit(s: string, c: char)
    ensures Join(Split(s, c), c) == s
    decreases |s|
  {
    var i := IndexOf(s, c);
    if i >= 0 {
      var rest := Split(s[i + 1..], c);
      JoinSplit(s[i + 1..], c);
      var ps := [s[..i]] + rest;
      assert ps[0] == s[..i] && ps[1..] == rest;
      assert s == s[..i] + [c] + s[i + 1..];
    }
  }

  /** The first separator of `a + [c] + b` is the one after `a` when `a` holds none. */
  lemma IndexOfAfter(a: string, b: string, c: char)
    requires c !in a
    ensures IndexOf(a + [c] + b, c) == |a|
  {
    var s := a + [c] + b;
    assert s[|a|] == c;
  }

  /** Joining pieces free of the separator, then splitting, gives the pieces back. */
  lemma {:induction false} SplitJoin(ps: seq<string>, c: char)
    requires |ps| >= 1
    requires forall i :: 0 <= i < |ps| ==> c !in ps[i]
    ensures Split(Join(ps, c), c) == ps
  {
    if |ps| == 1 {
      assert IndexOf(ps[0], c) == -1;
    } else {
      var tail := Join(ps[1..], c);
      assert forall i :: 0 <= i < |ps[1..]| ==> ps[1..][i] == ps[i + 1];
      SplitJoin(ps[1..], c);
      SplitCons(ps[0], tail, c);
      assert Join(ps, c) == ps[0] + [c] + tail;
      assert ps == [ps[0]] + ps[1..];
    }
  }

  /** A piece free of the separator, the separator, then the rest: the piece is the first field. */
  lemma SplitCons(a: string, tail: string, c: char)
    requires c !in a
    ensures Split(a + [c] + tail, c) == [a] + Split(tail, c)
  {
    IndexOfAfter(a, tail, c);
    var s := a + [c] + tail;
    assert s[..|a|] == a;
    assert s[|a| + 1..] == tail;
  }

  /** `filter(line => line.trim() !== '')`. */
  function NonBlank(ls: seq<string>): (r: seq<string>)
    ensures |r| <= |ls|
    ensures forall l :: l in r <==> l in ls && Trim(l) != ""
  {
    if ls == [] then [] else (if Trim(ls[0]) != "" then [ls[0]] else []) + NonBlank(ls[1..])
  }

  /** `map(h => h.trim())`. */
  function TrimAll(ps: seq<string>): (r: seq<string>)
    ensures |r| == |ps| && forall i :: 0 <= i < |ps| ==> r[i] == Trim(ps[i])
  {
    seq(|ps|, i requires 0 <= i < |ps| => Trim(ps[i]))
  }

  /** `requiredHeaders`: the columns an import cannot do without. */
  const RequiredHeaders: seq<string> := ["ID", "Datum", "Uhrzeit", "Symbol", "Typ", "Status", "Einstieg", "Stop Loss"]

  /** `required.filter(h => !headers.includes(h))`. */
  function Missing(required: seq<string>, headers: seq<string>): (m: seq<string>)
    ensures |m| <= |required|
    ensures forall h :: h in m <==> h in required && h !in headers
  {
    if required == [] then []
    else (if required[0] in headers then [] else [required[0]]) + Missing(required[1..], headers)
  }

  /** The lines of a CSV text that are not blank. */
  function CsvLines(text: string): seq<string>
  {
    NonBlank(Split(text, '\n'))
  }

  /** The trimmed cells of the header line. */
  function CsvHeaders(lines: seq<string>): seq<string>
    requires |lines| >= 1
  {
    TrimAll(Split(lines[0], ','))
  }

  /**
   * One cell of a row as the import reads it: `values[i] ? values[i].trim() : ''`,
   * so a missing or empty cell reads as the empty string.
   */
  function Cell(values: seq<string>, i: nat): string
  {
    if i < |values| && values[i] != "" then Trim(values[i]) else ""
  }

  /** No later header equals header `i`. */
  predicate LastOf(headers: seq<string>, i: nat)
    requires i < |headers|
  {
    forall j :: i < j < |headers| ==> headers[j] != headers[i]
  }

  /**
   * The record `headers.reduce` builds from a row: each header names the
   * cell at its position, a later header overwriting an equal earlier one.
   */
  function RowRecord(headers: seq<string>, values: seq<string>): map<string, string>
  {
    if headers == [] then map[]
    else RowRecord(headers[..|headers| - 1], values)[headers[|headers| - 1] := Cell(values, |headers| - 1)]
  }

  /** The record has exactly the headers as keys, and a header reads the cell of its last occurrence. */
  lemma {:induction false} RowRecordReads(headers: seq<string>, values: seq<string>)
    ensures RowRecord(headers, values).Keys == set h | h in headers
    ensures forall i :: 0 <= i < |headers| && LastOf(headers, i) ==> RowRecord(headers, values)[headers[i]] == Cell(values, i)
  {
    if headers != [] {
      var n := |headers| - 1;
      var prefix := headers[..n];
      RowRecordReads(prefix, values);
      assert headers == prefix + [headers[n]];
      forall i | 0 <= i < n && LastOf(headers, i)
        ensures RowRecord(headers, values)[headers[i]] == Cell(values, i)
      {
        assert headers[n] != headers[i];
        assert LastOf(prefix, i);
      }
    }
  }

  /** A header present in the record with a non-empty cell: what `entry[key]` tests. */
  predicate HasCell(rec: map<string, string>, key: string)
  {
    key in rec && rec[key] != ""
  }

  /** The text of a column every imported row has, once the header check passed. */
  function Column(rec: map<string, string>, key: string): string
  {
    if key in rec then rec[key] else ""
  }

  /** `entry[key] || dflt`, as `parseDecimal` reads it. */
  function ColumnOr(rec: map<string, string>, key: string, dflt: string, syn: NumberSyntax): real
  {
    ParseDecimal(Text(if HasCell(rec, key) then rec[key] else dflt), syn)
  }

  /** `toLowerCase` on the ASCII letters. */
  function LowerChar(c: char): (l: char)
    ensures 'A' <= c <= 'Z' ==> 'a' <= l <= 'z'
    ensures !('A' <= c <= 'Z') ==> l == c
  {
    if 'A' <= c <= 'Z' then (c as int - 'A' as int + 'a' as int) as char else c
  }

  function ToLower(s: string): (l: string)
    ensures |l| == |s| && forall i :: 0 <= i < |s| ==> l[i] == LowerChar(s[i])
  {
    if s == [] then [] else [LowerChar(s[0])] + ToLower(s[1..])
  }

  /** The status string of a row. */
  function StatusOf(s: string): (st: Status)
    ensures s == "Open" <==> st == Open
    ensures s == "Won" <==> st == Won
    ensures s == "Lost" <==> st == Lost
  {
    if s == "Open" then Open else if s == "Won" then Won else if s == "Lost" then Lost else OtherStatus(s)
  }

  // ---------------------------------------------------------------------
  // Notes: the export's quoting and the import's unquoting
  // ---------------------------------------------------------------------

  /** `replace(/\n/g, ' ')`. */
  function NewlinesToSpaces(s: string): (t: string)
    ensures |t| == |s| && '\n' !in t
    ensures forall i :: 0 <= i < |s| ==> t[i] == if s[i] == '\n' then ' ' else s[i]
  {
    seq(|s|, i requires 0 <= i < |s| => if s[i] == '\n' then ' ' else s[i])
  }

  /** `replace(/"/g, '""')`: every double quote doubled. */
  function DoubleQuotes(s: string): (t: string)
    ensures |t| >= |s|
    ensures ',' !in s && '\n' !in s ==> ',' !in t && '\n' !in t
  {
    if s == [] then [] else (if s[0] == '"' then "\"\"" else [s[0]]) + DoubleQuotes(s[1..])
  }

  /** `replace(/""/g, '"')`: each pair of double quotes, from the left, becomes one. */
  function UndoubleQuotes(s: string): (t: string)
    ensures |t| <= |s|
  {
    if |s| >= 2 && s[0] == '"' && s[1] == '"' then "\"" + UndoubleQuotes(s[2..])
    else if s == [] then []
    else [s[0]] + UndoubleQuotes(s[1..])
  }

  /** `slice(1, -1)`: the text without its first and last character. */
  function Unwrap(s: string): (t: string)
    ensures |s| >= 2 ==> s == [s[0]] + t + [s[|s| - 1]]
    ensures |s| < 2 ==> t == ""
  {
    if |s| >= 2 then s[1..|s| - 1] else ""
  }

  /** The notes cell the CSV export writes: quoted, quotes doubled, line breaks as spaces; empty notes give an empty cell. */
  function ExportedNotes(notes: string): (cell: string)
    ensures notes != "" ==> |cell| >= 2 && cell[0] == '"' && cell[|cell| - 1] == '"'
  {
    if notes == "" then "" else "\"" + DoubleQuotes(NewlinesToSpaces(notes)) + "\""
  }

  /** The notes of an imported row as the import computes them: undouble, then strip the outer characters. */
  function ImportedNotesAsWritten(cell: string): string
  {
    if cell != "" then Unwrap(UndoubleQuotes(cell)) else ""
  }

  /** The notes of an imported row: strip the outer quotes, then undouble. */
  function ImportedNotes(cell: string): string
  {
    if cell != "" then UndoubleQuotes(Unwrap(cell)) else ""
  }

  lemma {:induction false} UndoubleDoubled(s: string)
    ensures UndoubleQuotes(DoubleQuotes(s)) == s
  {
    if s != [] {
      UndoubleDoubled(s[1..]);
      var rest := DoubleQuotes(s[1..]);
      if s[0] == '"' {
        var d := "\"\"" + rest;
        assert d[2..] == rest;
      } else {
        var d := [s[0]] + rest;
        assert d[1..] == rest;
      }
      assert s == [s[0]] + s[1..];
    }
  }

  /** A text whose ends are not white space is its own trim. */
  lemma TrimKeeps(s: string)
    requires s != [] && !IsJsSpace(s[0]) && !IsJsSpace(s[|s| - 1])
    ensures Trim(s) == s
  {
  }

  /** The import's trim leaves an exported notes cell as it is. */
  lemma ExportedCellKept(notes: string)
    ensures Cell([ExportedNotes(notes)], 0) == ExportedNotes(notes)
  {
    if notes != "" {
      TrimKeeps(ExportedNotes(notes));
    }
  }

  /**
   * Notes without a comma survive an export and a re-import, up to the
   * line breaks the export turns into spaces.
   */
  lemma NotesRoundTrip(notes: string)
    requires ',' !in notes
    ensures ImportedNotes(Cell([ExportedNotes(notes)], 0)) == NewlinesToSpaces(notes)
  {
    var flat := NewlinesToSpaces(notes);
    if notes != "" {
      var cell := ExportedNotes(notes);
      assert ',' !in flat;
      ExportedCellKept(notes);
      assert Unwrap(cell) == DoubleQuotes(flat);
      UndoubleDoubled(flat);
    } else {
      assert flat == "";
    }
  }

  /** The export writes a note holding one double quote as four double quotes. */
  lemma ExportedQuote()
    ensures ExportedNotes("\"") == "\"\"\"\""
  {
    assert NewlinesToSpaces("\"") == "\"";
    assert "\""[1..] == "";
    assert DoubleQuotes("\"") == "\"\"";
  }

  /**
   * Undoubling first pairs the opening quote with the note's own quote, so
   * the import as written reads that cell (which its trim leaves as it is,
   * by `ExportedCellKept`) as an empty note, where stripping the outer
   * quotes first gives the note back.
   */
  lemma NotesLostAsWritten()
    ensures ImportedNotesAsWritten("\"\"\"\"") == ""
    ensures ImportedNotes("\"\"\"\"") == "\""
  {
    var q := "\"\"\"\"";
    var two := "\"\"";
    assert q[2..] == two && two[2..] == "";
    assert UndoubleQuotes(two) == "\"";
    assert UndoubleQuotes(q) == two;
    assert Unwrap(q) == two;
    assert Unwrap(two) == "";
  }

  // ---------------------------------------------------------------------
  // Rows
  // ---------------------------------------------------------------------

  /** The column names of take-profit pair `j`; the pairs run from 1 to 5, so `j` is one digit. */
  function PriceKey(j: nat): string
    requires 1 <= j <= 5
  {
    "TP" + [DigitChar(j)] + " Preis"
  }

  function PercentKey(j: nat): string
    requires 1 <= j <= 5
  {
    "TP" + [DigitChar(j)] + " %"
  }

  /** Both cells of take-profit pair `j` are non-empty. */
  predicate HasPair(rec: map<string, string>, j: nat)
    requires 1 <= j <= 5
  {
    HasCell(rec, PriceKey(j)) && HasCell(rec, PercentKey(j))
  }

  /** The unlocked target pair `j` gives. */
  function PairTarget(rec: map<string, string>, syn: NumberSyntax, j: nat): Target
    requires 1 <= j <= 5 && HasPair(rec, j)
  {
    Target(ParseDecimal(Text(rec[PriceKey(j)]), syn), ParseDecimal(Text(rec[PercentKey(j)]), syn), false)
  }

  /**
   * The targets read from take-profit pairs 1 to `n`, in order: a pair
   * gives an unlocked target when both its cells are non-empty.
   */
  function CsvTargets(rec: map<string, string>, syn: NumberSyntax, n: nat): (ts: seq<Target>)
    requires n <= 5
    ensures |ts| <= n
    ensures forall i :: 0 <= i < |ts| ==> !ts[i].isLocked
  {
    if n == 0 then []
    else
      var prev := CsvTargets(rec, syn, n - 1);
      if HasPair(rec, n) then
        var ts := prev + [PairTarget(rec, syn, n)];
        assert forall i :: 0 <= i < |prev| ==> ts[i] == prev[i];
        ts
      else prev
  }

  /** When every pair up to `n` is filled, each gives a target. */
  lemma {:induction false} CsvTargetsCount(rec: map<string, string>, syn: NumberSyntax, n: nat)
    requires n <= 5
    requires forall j :: 1 <= j <= n ==> HasPair(rec, j)
    ensures |CsvTargets(rec, syn, n)| == n
  {
    if n > 0 {
      CsvTargetsCount(rec, syn, n - 1);
    }
  }

  /** When every pair up to `n` is filled, target `i` comes from pair `i + 1`. */
  lemma {:induction false} CsvTargetsAllFilled(rec: map<string, string>, syn: NumberSyntax, n: nat, i: nat)
    requires i < n <= 5
    requires forall j :: 1 <= j <= n ==> HasPair(rec, j)
    ensures i < |CsvTargets(rec, syn, n)| && CsvTargets(rec, syn, n)[i] == PairTarget(rec, syn, i + 1)
  {
    CsvTargetsCount(rec, syn, n);
    CsvTargetsCount(rec, syn, n - 1);
    if i < n - 1 {
      CsvTargetsAllFilled(rec, syn, n - 1, i);
    }
  }

  /** The readers the import uses whose source is not part of this model. */
  datatype CsvReaders = CsvReaders(
    parseId: string -> int,                      // `parseInt(s, 10)`
    parseDate: (string, string) -> Option<string>, // `parseGermanDate(date, time)`; `None` where it throws
    tradeTypeOf: string -> TradeType)            // the lower-cased type against the trade-type constants

  /** The entry of a row whose take-profit pairs have been read as `targets`. */
  function EntryWithTargets(rec: map<string, string>, syn: NumberSyntax, rd: CsvReaders, targets: seq<Target>): Option<JournalEntry>
  {
    match rd.parseDate(Column(rec, "Datum"), Column(rec, "Uhrzeit"))
    case None => None
    case Some(date) =>
      Some(JournalEntry(
        id := rd.parseId(Column(rec, "ID")),
        date := date,
        symbol := Column(rec, "Symbol"),
        tradeType := rd.tradeTypeOf(ToLower(Column(rec, "Typ"))),
        status := StatusOf(Column(rec, "Status")),
        accountSize := ColumnOr(rec, "Konto Guthaben", "0", syn),
        riskPercentage := ColumnOr(rec, "Risiko %", "0", syn),
        leverage := ColumnOr(rec, "Hebel", "1", syn),
        fees := ColumnOr(rec, "Gebuehren %", "0.1", syn),
        entryPrice := ParseDecimal(Text(Column(rec, "Einstieg")), syn),
        stopLossPrice := ParseDecimal(Text(Column(rec, "Stop Loss")), syn),
        totalRR := ColumnOr(rec, "Gewichtetes R/R", "0", syn),
        totalNetProfit := ColumnOr(rec, "Gesamt Netto-Gewinn", "0", syn),
        realizedPnl := None,
        riskAmount := ColumnOr(rec, "Risiko pro Trade (Waehrung)", "0", syn),
        netLoss := None,
        totalFees := ColumnOr(rec, "Gesamte Gebuehren", "0", syn),
        notes := ImportedNotesAsWritten(Column(rec, "Notizen")),
        targets := targets,
        calculatedTpDetails := []))
  }

  /**
   * The entry a row gives, or `None` when its date does not parse and the
   * row is dropped. Missing optional cells take the defaults 0, leverage 1
   * and fees 0.1; an imported entry has no realized profit/loss, no net
   * loss and no per-target details; its notes are read as written,
   * undoubled before the outer quotes are stripped.
   */
  function EntryOf(rec: map<string, string>, syn: NumberSyntax, rd: CsvReaders): (r: Option<JournalEntry>)
    ensures r.None? <==> rd.parseDate(Column(rec, "Datum"), Column(rec, "Uhrzeit")).None?
    ensures r.Some? ==> var e := r.value;
      && e.id == rd.parseId(Column(rec, "ID"))
      && e.status == StatusOf(Column(rec, "Status"))
      && e.realizedPnl == None && e.netLoss == None
      && e.notes == ImportedNotesAsWritten(Column(rec, "Notizen"))
      && |e.targets| <= 5 && (forall i :: 0 <= i < |e.targets| ==> !e.targets[i].isLocked)
      && (!HasCell(rec, "Hebel") ==> e.leverage == ParseDecimal(Text("1"), syn))
      && (!HasCell(rec, "Gebuehren %") ==> e.fees == ParseDecimal(Text("0.1"), syn))
  {
    EntryWithTargets(rec, syn, rd, CsvTargets(rec, syn, 5))
  }

  /** The entries of the data rows, in order, without the dropped rows. */
  function RowEntries(headers: seq<string>, rows: seq<string>, syn: NumberSyntax, rd: CsvReaders): (es: seq<JournalEntry>)
    ensures |es| <= |rows|
    ensures forall i :: 0 <= i < |es| ==> es[i].realizedPnl == None && es[i].netLoss == None
  {
    if rows == [] then []
    else
      RowEntries(headers, rows[..|rows| - 1], syn, rd)
      + match EntryOf(RowRecord(headers, Split(rows[|rows| - 1], ',')), syn, rd)
        case Some(e) => [e]
        case None => []
  }

  /** How an import ends. */
  datatype ImportOutcome = TooShort | MissingColumns(missing: seq<string>) | NoValidEntries | Imported(entries: seq<JournalEntry>)

  /**
   * The import's reading of a CSV text: fewer than two non-blank lines,
   * a missing required column, no row that gives an entry, or the entries.
   */
  function CsvImport(text: string, syn: NumberSyntax, rd: CsvReaders): (o: ImportOutcome)
    ensures o == TooShort <==> |CsvLines(text)| < 2
    ensures o.MissingColumns? ==> forall h :: h in o.missing <==> h in RequiredHeaders && h !in CsvHeaders(CsvLines(text))
    ensures o.Imported? ==> o.entries != [] && forall h :: h in RequiredHeaders ==> h in CsvHeaders(CsvLines(text))
  {
    var lines := CsvLines(text);
    if |lines| < 2 then TooShort
    else
      var headers := CsvHeaders(lines);
      var missing := Missing(RequiredHeaders, headers);
      if missing != [] then MissingColumns(missing)
      else
        var es := RowEntries(headers, lines[1..], syn, rd);
        if es == [] then NoValidEntries else Imported(es)
  }

  /**
   * A file of two or more lines is refused for its columns exactly when a
   * required column is missing from its header line.
   */
  lemma CsvRequiresColumns(text: string, syn: NumberSyntax, rd: CsvReaders)
    requires |CsvLines(text)| >= 2
    ensures CsvImport(text, syn, rd).MissingColumns? <==>
      exists h :: h in RequiredHeaders && h !in CsvHeaders(CsvLines(text))
  {
    var m := Missing(RequiredHeaders, CsvHeaders(CsvLines(text)));
    if m != [] {
      assert m[0] in m;
    }
  }

  // ---------------------------------------------------------------------
  // Merging by id
  // ---------------------------------------------------------------------

  lemma {:induction false} IdsAppend(a: seq<JournalEntry>, b: seq<JournalEntry>)
    ensures Ids(a + b) == Ids(a) + Ids(b)
  {
    if b != [] {
      IdsAppend(a, b[..|b| - 1]);
      assert (a + b)[..|a + b| - 1] == a + b[..|b| - 1];
    }
  }

  /** The ids in order of first appearance: the key order of `new Map(pairs)`. */
  function FirstIds(es: seq<JournalEntry>): (ids: seq<int>)
    ensures |ids| <= |es|
    ensures forall x :: x in ids <==> x in Ids(es)
    ensures forall i, j :: 0 <= i < j < |ids| ==> ids[i] != ids[j]
  {
    if es == [] then []
    else
      var p := FirstIds(es[..|es| - 1]);
      var x := es[|es| - 1].id;
      if x in p then p else p + [x]
  }

  /** The value `new Map(pairs)` holds for an id: the last entry with it. */
  function LastWithId(es: seq<JournalEntry>, id: int): (e: JournalEntry)
    requires id in Ids(es)
    ensures e in es && e.id == id
  {
    if es[|es| - 1].id == id then es[|es| - 1] else LastWithId(es[..|es| - 1], id)
  }

  /**
   * `Array.from(new Map(es.map(t => [t.id, t])).values())`: one entry per
   * id, in order of the id's first appearance, each the last entry with
   * that id.
   */
  function MergeById(es: seq<JournalEntry>): (r: seq<JournalEntry>)
    ensures UniqueIds(r)
    ensures forall x :: x in Ids(r) <==> x in Ids(es)
    ensures forall i :: 0 <= i < |r| ==> r[i] == LastWithId(es, r[i].id)
    ensures Ids(r) == FirstIds(es)
  {
    var ids := FirstIds(es);
    var r := seq(|ids|, i requires 0 <= i < |ids| => LastWithId(es, ids[i]));
    assert Ids(r) == ids;
    r
  }

  /** The last entry with an id in `a + b` is the last in `b` if `b` has the id, otherwise the last in `a`. */
  lemma {:induction false} LastWithIdAppend(a: seq<JournalEntry>, b: seq<JournalEntry>, id: int)
    requires id in Ids(a) || id in Ids(b)
    ensures id in Ids(a + b)
    ensures id in Ids(b) ==> LastWithId(a + b, id) == LastWithId(b, id)
    ensures id !in Ids(b) ==> LastWithId(a + b, id) == LastWithId(a, id)
  {
    IdsAppend(a, b);
    if b == [] {
      assert a + b == a;
    } else {
      var n := |b| - 1;
      assert (a + b)[..|a + b| - 1] == a + b[..n];
      assert (a + b)[|a + b| - 1] == b[n];
      assert Ids(b) == Ids(b[..n]) + [b[n].id];
      if b[n].id != id {
        LastWithIdAppend(a, b[..n], id);
      }
    }
  }

  /** The first appearances in `a` come first, in the same order, in those of `a + b`. */
  lemma {:induction false} FirstIdsAppend(a: seq<JournalEntry>, b: seq<JournalEntry>)
    ensures |FirstIds(a)| <= |FirstIds(a + b)|
    ensures FirstIds(a + b)[..|FirstIds(a)|] == FirstIds(a)
  {
    if b != [] {
      var n := |b| - 1;
      FirstIdsAppend(a, b[..n]);
      assert (a + b)[..|a + b| - 1] == a + b[..n];
      assert (a + b)[|a + b| - 1] == b[n];
      var p := FirstIds(a + b[..n]);
      var k := |FirstIds(a)|;
      assert FirstIds(a + b) == p || FirstIds(a + b) == p + [b[n].id];
      assert (p + [b[n].id])[..k] == p[..k];
    } else {
      assert a + b == a;
    }
  }

  /** With distinct ids, the last entry with an id is the one `findIndex` finds. */
  lemma {:induction false} LastWithIdUnique(es: seq<JournalEntry>, id: int)
    requires UniqueIds(es) && id in Ids(es)
    ensures IndexOfId(es, id) >= 0 && LastWithId(es, id) == es[IndexOfId(es, id)]
  {
    var n := |es| - 1;
    assert Ids(es) == Ids(es[..n]) + [es[n].id];
    if es[n].id != id {
      assert UniqueIds(es[..n]);
      LastWithIdUnique(es[..n], id);
    } else {
      assert forall j :: 0 <= j < n ==> es[j].id != id;
    }
  }

  /**
   * The import's merge of the journal `cur` with the imported entries
   * `imp` keeps every id of both and adds none, and the entries already in
   * the journal keep their places at the front.
   */
  lemma ImportMergeIds(cur: seq<JournalEntry>, imp: seq<JournalEntry>)
    requires UniqueIds(cur)
    ensures var r := MergeById(cur + imp);
      && (forall x :: x in Ids(r) <==> x in Ids(cur) || x in Ids(imp))
      && |cur| <= |r| && Ids(r)[..|cur|] == Ids(cur)
  {
    IdsAppend(cur, imp);
    FirstIdsAppend(cur, imp);
    FirstIdsOfUnique(cur);
  }

  /** In the merge, an imported entry replaces the journal's entry with its id. */
  lemma ImportOverrides(cur: seq<JournalEntry>, imp: seq<JournalEntry>)
    ensures var r := MergeById(cur + imp);
      forall i :: 0 <= i < |r| && r[i].id in Ids(imp) ==> r[i] == LastWithId(imp, r[i].id)
  {
    var r := MergeById(cur + imp);
    forall i | 0 <= i < |r| && r[i].id in Ids(imp)
      ensures r[i] == LastWithId(imp, r[i].id)
    {
      LastWithIdAppend(cur, imp, r[i].id);
    }
  }

  /** A journal entry whose id was not imported stays as it was, in its place. */
  lemma {:induction false} KeptInMerge(cur: seq<JournalEntry>, imp: seq<JournalEntry>, i: nat)
    requires UniqueIds(cur) && i < |cur| && cur[i].id !in Ids(imp)
    ensures i < |MergeById(cur + imp)| && MergeById(cur + imp)[i] == cur[i]
  {
    var r := MergeById(cur + imp);
    var id := cur[i].id;
    ImportMergeIds(cur, imp);
    assert Ids(r)[..|cur|][i] == id;
    assert r[i].id == id;
    LastWithIdAppend(cur, imp, id);
    LastWithIdUnique(cur, id);
    assert IndexOfId(cur, id) == i;
  }

  /** In the merge, every journal entry whose id was not imported stays as it was, in its place. */
  lemma ImportKeepsOthers(cur: seq<JournalEntry>, imp: seq<JournalEntry>)
    requires UniqueIds(cur)
    ensures var r := MergeById(cur + imp);
      |cur| <= |r| && forall i :: 0 <= i < |cur| && cur[i].id !in Ids(imp) ==> r[i] == cur[i]
  {
    ImportMergeIds(cur, imp);
    forall i | 0 <= i < |cur| && cur[i].id !in Ids(imp)
      ensures MergeById(cur + imp)[i] == cur[i]
    {
      KeptInMerge(cur, imp, i);
    }
  }

  /** Distinct ids appear first exactly where they are. */
  lemma {:induction false} FirstIdsOfUnique(es: seq<JournalEntry>)
    requires UniqueIds(es)
    ensures FirstIds(es) == Ids(es)
  {
    if es != [] {
      var n := |es| - 1;
      assert UniqueIds(es[..n]);
      FirstIdsOfUnique(es[..n]);
      assert es[n].id !in Ids(es[..n]);
    }
  }

  // ---------------------------------------------------------------------
  // The journal
  // ---------------------------------------------------------------------

  /** The journal: its entries, which the operations replace. */
  class JournalStore {
    var entries: seq<JournalEntry>

    constructor (es: seq<JournalEntry>)
      ensures entries == es
    {
      entries := es;
    }

    /** `updateTradeStatus(id, s)`. */
    method UpdateTradeStatus(id: int, s: Status)
      modifies this
      ensures entries == UpdatedStatus(old(entries), id, s)
      ensures UniqueIds(old(entries)) ==> UniqueIds(entries)
    {
      if UniqueIds(entries) {
        SameIdsUnique(entries, UpdatedStatus(entries, id, s));
      }
      var k := IndexOfId(entries, id);
      if k != -1 {
        var trade := entries[k].(status := s);
        if (s == Won || s == Lost) && trade.realizedPnl.None? {
          if s == Won {
            trade := trade.(realizedPnl := Some(trade.totalNetProfit));
          } else if trade.netLoss.Some? {
            trade := trade.(realizedPnl := Some(-trade.netLoss.value));
          }
        }
        entries := entries[k := trade];
      }
    }

    /**
     * `updateRealizedPnl(id, pnl)`: nothing happens when no entry has the
     * id; a text the decimal constructor refuses shows an error and leaves
     * the journal as it was.
     */
    method UpdateRealizedPnl(stores: Stores, id: int, pnl: Option<string>, decimalOf: string -> Option<real>)
      modifies this, stores
      ensures entries == PnlEdited(old(entries), id, PnlEditOf(pnl, decimalOf))
      ensures stores.ui == if IndexOfId(old(entries), id) >= 0 && PnlEditOf(pnl, decimalOf) == Rejected
        then ShowError(old(stores.ui), InvalidPnl) else old(stores.ui)
      ensures stores.trade == old(stores.trade) && stores.results == old(stores.results)
    {
      var k := IndexOfId(entries, id);
      if k == -1 {
        return;
      }
      var edit := PnlEditOf(pnl, decimalOf);
      ghost var edited := PnlEdited(entries, id, edit);
      match edit
      case Clear =>
        entries := entries[k := entries[k].(realizedPnl := None)];
        assert entries == edited;
      case SetTo(v) =>
        entries := entries[k := entries[k].(realizedPnl := Some(v))];
        assert entries == edited;
      case Rejected =>
        stores.ui := ShowError(stores.ui, InvalidPnl);
        assert entries == edited;
    }

    /** `deleteTrade(id)`. */
    method DeleteTrade(id: int)
      modifies this
      ensures entries == WithoutId(old(entries), id)
      ensures id !in Ids(entries)
      ensures UniqueIds(old(entries)) ==> UniqueIds(entries)
    {
      if UniqueIds(entries) {
        WithoutIdUnique(entries, id);
      }
      entries := WithoutId(entries, id);
    }

    /**
     * `importFromCSV` once the file is read: an error for a short file, a
     * missing column or no usable row; otherwise, if the user confirms,
     * the journal becomes its merge with the imported entries.
     */
    method ImportFromCsv(stores: Stores, text: string, syn: NumberSyntax, rd: CsvReaders, confirmed: bool)
      modifies this, stores
      ensures stores.trade == old(stores.trade) && stores.results == old(stores.results)
      ensures match CsvImport(text, syn, rd)
        case TooShort => entries == old(entries) && stores.ui == ShowError(old(stores.ui), CsvTooShort)
        case MissingColumns(m) => entries == old(entries) && stores.ui == ShowError(old(stores.ui), CsvMissingHeaders(m))
        case NoValidEntries => entries == old(entries) && stores.ui == ShowError(old(stores.ui), CsvNoEntries)
        case Imported(es) =>
          && stores.ui == old(stores.ui)
          && entries == if confirmed then MergeById(old(entries) + es) else old(entries)
    {
      var lines := NonBlank(Split(text, '\n'));
      if |lines| < 2 {
        stores.ui := ShowError(stores.ui, CsvTooShort);
        return;
      }
      var headers := TrimAll(Split(lines[0], ','));
      var missing := Missing(RequiredHeaders, headers);
      if |missing| > 0 {
        stores.ui := ShowError(stores.ui, CsvMissingHeaders(missing));
        return;
      }
      var imported := ReadRows(headers, lines[1..], syn, rd);
      if |imported| > 0 {
        if confirmed {
          entries := MergeById(entries + imported);
        }
      } else {
        stores.ui := ShowError(stores.ui, CsvNoEntries);
      }
    }
  }

  /** `lines.slice(1).map(...).filter(entry => entry !== null)`: the entries of the data rows. */
  method ReadRows(headers: seq<string>, rows: seq<string>, syn: NumberSyntax, rd: CsvReaders) returns (imported: seq<JournalEntry>)
    ensures imported == RowEntries(headers, rows, syn, rd)
  {
    imported := [];
    for i := 0 to |rows|
      invariant imported == RowEntries(headers, rows[..i], syn, rd)
    {
      assert rows[..i + 1][..i] == rows[..i];
      var e := ReadEntry(RowRecord(headers, Split(rows[i], ',')), syn, rd);
      if e.Some? {
        imported := imported + [e.value];
      }
    }
    assert rows[..|rows|] == rows;
  }

  /** The take-profit loop of a row: pairs 1 to 5. */
  method ReadTargets(rec: map<string, string>, syn: NumberSyntax) returns (targets: seq<Target>)
    ensures targets == CsvTargets(rec, syn, 5)
  {
    targets := [];
    for j := 1 to 6
      invariant targets == CsvTargets(rec, syn, j - 1)
    {
      var priceKey := PriceKey(j);
      var percentKey := PercentKey(j);
      if HasCell(rec, priceKey) && HasCell(rec, percentKey) {
        targets := targets + [Target(ParseDecimal(Text(rec[priceKey]), syn), ParseDecimal(Text(rec[percentKey]), syn), false)];
      }
      assert targets == CsvTargets(rec, syn, j);
    }
  }

  /** The row callback of the import: the entry of one record, or `None` for a dropped row. */
  method ReadEntry(rec: map<string, string>, syn: NumberSyntax, rd: CsvReaders) returns (r: Option<JournalEntry>)
    ensures r == EntryOf(rec, syn, rd)
  {
    var targets := ReadTargets(rec, syn);
    r := EntryWithTargets(rec, syn, rd, targets);
  }
}
