/** Saving check results: accounts grouped by outcome, and a CSV file that a reader for section 2 of
    RFC 4180 reads back. */
module ResultsCsv {
  import opened Options
  import opened Strings

  // ---- Writing ---------------------------------------------------------------------------

  datatype Cell = Null | Num(n: int) | Str(s: string)

  function Stringified(v: Cell): string {
    match v
    case Null => ""
    case Num(n) => Decimal(n)
    case Str(s) => s
  }

  predicate NeedsQuotes(s: string) { '"' in s || ',' in s || '\n' in s || '\r' in s }

  /** Every quote doubled. */
  function Doubled(s: string): string {
    if s == "" then ""
    else (if s[0] == '"' then ['"', '"'] else [s[0]]) + Doubled(s[1..])
  }

  function Escape(v: Cell): string {
    var s := Stringified(v);
    if NeedsQuotes(s) then ['"'] + Doubled(s) + ['"'] else s
  }

  function Escaped(row: seq<Cell>): seq<string> {
    if row == [] then [] else [Escape(row[0])] + Escaped(row[1..])
  }

  function Lines(rows: seq<seq<Cell>>): seq<string> {
    if rows == [] then [] else [Join(Escaped(rows[0]), ",")] + Lines(rows[1..])
  }

  const BOM := '\U{FEFF}'

  function Csv(rows: seq<seq<Cell>>): string { [BOM] + Join(Lines(rows), "\r\n") }

  // ---- Reading ---------------------------------------------------------------------------

  datatype Field = Field(text: string, rest: string)

  /** The rest of a quoted field. */
  function ReadQuoted(s: string): Option<Field> {
    if s == "" then None
    else if s[0] != '"' then
      match ReadQuoted(s[1..])
      case None => None
      case Some(f) => Some(Field([s[0]] + f.text, f.rest))
    else if |s| >= 2 && s[1] == '"' then
      match ReadQuoted(s[2..])
      case None => None
      case Some(f) => Some(Field(['"'] + f.text, f.rest))
    else Some(Field("", s[1..]))
  }

  predicate IsText(c: char) { c != '"' && c != ',' && c != '\n' && c != '\r' }

  function ReadPlain(s: string): (f: Field)
    ensures |f.rest| <= |s|
  {
    if s == "" || !IsText(s[0]) then Field("", s)
    else var f := ReadPlain(s[1..]); Field([s[0]] + f.text, f.rest)
  }

  function ReadField(s: string): Option<Field> {
    if s != "" && s[0] == '"' then ReadQuoted(s[1..]) else Some(ReadPlain(s))
  }

  lemma {:induction false} QuotedShrinks(s: string)
    ensures ReadQuoted(s).Some? ==> |ReadQuoted(s).value.rest| < |s|
    decreases |s|
  {
    if s != "" && s[0] != '"' { QuotedShrinks(s[1..]); }
    else if |s| >= 2 && s[1] == '"' { QuotedShrinks(s[2..]); }
  }

  /** Records are separated by CRLF; the last one may or may not be followed by it. */
  function ReadRecords(s: string): Option<seq<seq<string>>>
    decreases |s|
  {
    QuotedShrinks(if s != "" then s[1..] else s);
    match ReadField(s)
    case None => None
    case Some(f) =>
      if f.rest == "" || f.rest == "\r\n" then Some([[f.text]])
      else if f.rest[0] == ',' then
        match ReadRecords(f.rest[1..])
        case None => None
        case Some(rs) => if rs == [] then None else Some([[f.text] + rs[0]] + rs[1..])
      else if "\r\n" <= f.rest then
        match ReadRecords(f.rest[2..])
        case None => None
        case Some(rs) => Some([[f.text]] + rs)
      else None
  }

  function ReadCsv(s: string): Option<seq<seq<string>>> {
    ReadRecords(if s != "" && s[0] == BOM then s[1..] else s)
  }

  // ---- Round trip ------------------------------------------------------------------------

  predicate EndsField(tail: string) { tail == "" || tail[0] == ',' || tail[0] == '\r' }

  lemma ReadsDoubled(more: string)
    requires ReadQuoted(more).Some?
    ensures ReadQuoted("\"\"" + more) == Some(Field(['"'] + ReadQuoted(more).value.text, ReadQuoted(more).value.rest))
  {
    assert ("\"\"" + more)[2..] == more;
  }

  lemma ReadsChar(c: char, more: string)
    requires c != '"' && ReadQuoted(more).Some?
    ensures ReadQuoted([c] + more) == Some(Field([c] + ReadQuoted(more).value.text, ReadQuoted(more).value.rest))
  {
    assert ([c] + more)[1..] == more;
  }

  lemma ReadsQuotedEnd(tail: string)
    requires EndsField(tail)
    ensures ReadQuoted(['"'] + tail) == Some(Field("", tail))
  {
    assert (['"'] + tail)[1..] == tail;
  }

  lemma DoubledSplits(s: string, tail: string)
    requires s != ""
    ensures Doubled(s) + ['"'] + tail
            == (if s[0] == '"' then "\"\"" else [s[0]]) + (Doubled(s[1..]) + ['"'] + tail)
  {}

  lemma {:induction false} QuotedComesBack(s: string, tail: string)
    requires EndsField(tail)
    ensures ReadQuoted(Doubled(s) + ['"'] + tail) == Some(Field(s, tail))
    decreases |s|
  {
    if s == "" {
      ReadsQuotedEnd(tail);
      assert Doubled(s) + ['"'] + tail == ['"'] + tail;
    } else {
      var more := Doubled(s[1..]) + ['"'] + tail;
      QuotedComesBack(s[1..], tail);
      DoubledSplits(s, tail);
      assert [s[0]] + s[1..] == s;
      if s[0] == '"' { ReadsDoubled(more); } else { ReadsChar(s[0], more); }
    }
  }

  lemma {:induction false} PlainComesBack(s: string, tail: string)
    requires !NeedsQuotes(s) && EndsField(tail)
    ensures ReadPlain(s + tail) == Field(s, tail)
    decreases |s|
  {
    if s == "" {
      assert s + tail == tail;
    } else {
      assert s[0] in s;
      assert (s + tail)[1..] == s[1..] + tail;
      PlainComesBack(s[1..], tail);
      assert [s[0]] + s[1..] == s;
    }
  }

  lemma StartsQuoted(t: string, rest: string)
    requires t == ['"'] + rest
    ensures ReadField(t) == ReadQuoted(rest)
  {
    assert t[1..] == rest;
  }

  lemma QuotedFieldComesBack(s: string, tail: string)
    requires EndsField(tail)
    ensures ReadField((['"'] + Doubled(s) + ['"']) + tail) == Some(Field(s, tail))
  {
    QuotedComesBack(s, tail);
    var rest := Doubled(s) + ['"'] + tail;
    Associative(['"'], Doubled(s) + ['"'], tail);
    Associative(['"'], Doubled(s), ['"']);
    StartsQuoted(['"'] + rest, rest);
  }

  lemma PlainFieldComesBack(s: string, tail: string)
    requires !NeedsQuotes(s) && EndsField(tail)
    ensures ReadField(s + tail) == Some(Field(s, tail))
  {
    PlainComesBack(s, tail);
    if s != "" {
      assert s[0] in s;
      assert (s + tail)[0] == s[0];
    } else {
      assert s + tail == tail;
    }
  }

  lemma FieldComesBack(v: Cell, tail: string)
    requires EndsField(tail)
    ensures ReadField(Escape(v) + tail) == Some(Field(Stringified(v), tail))
  {
    var s := Stringified(v);
    if NeedsQuotes(s) { QuotedFieldComesBack(s, tail); } else { PlainFieldComesBack(s, tail); }
  }

  function StringifiedRow(row: seq<Cell>): (r: seq<string>)
    ensures |r| == |row|
  {
    if row == [] then [] else [Stringified(row[0])] + StringifiedRow(row[1..])
  }

  function StringifiedRows(rows: seq<seq<Cell>>): (r: seq<seq<string>>)
    ensures |r| == |rows|
  {
    if rows == [] then [] else [StringifiedRow(rows[0])] + StringifiedRows(rows[1..])
  }

  /** What follows a record: nothing, or a line break and more records. */
  predicate Follows(tail: string, more: seq<seq<string>>) {
    if tail == "" then more == []
    else "\r\n" <= tail && tail != "\r\n" && ReadRecords(tail[2..]) == Some(more)
  }

  lemma ReadsComma(s: string, text: string, rest: string, rs: seq<seq<string>>)
    requires ReadField(s) == Some(Field(text, "," + rest)) && ReadRecords(rest) == Some(rs) && rs != []
    ensures ReadRecords(s) == Some([[text] + rs[0]] + rs[1..])
  {
    assert ("," + rest)[1..] == rest;
  }

  lemma ReadsRecordEnd(s: string, text: string, tail: string, more: seq<seq<string>>)
    requires ReadField(s) == Some(Field(text, tail)) && Follows(tail, more)
    ensures ReadRecords(s) == Some([[text]] + more)
  {
    if tail == "" {
      assert [[text]] + more == [[text]];
    } else {
      assert tail[0] == "\r\n"[0];
    }
  }

  lemma OneField(v: Cell)
    ensures Join(Escaped([v]), ",") == Escape(v) && StringifiedRow([v]) == [Stringified(v)]
  {
    assert [v][1..] == [];
    assert Escaped([v]) == [Escape(v)];
  }

  lemma MoreFields(v: Cell, row: seq<Cell>)
    requires row != []
    ensures Join(Escaped([v] + row), ",") == Escape(v) + ("," + Join(Escaped(row), ","))
    ensures StringifiedRow([v] + row) == [Stringified(v)] + StringifiedRow(row)
  {
    assert ([v] + row)[1..] == row;
    assert Escaped([v] + row) == [Escape(v)] + Escaped(row);
    JoinFirst(Escape(v), Escaped(row), ",");
  }

  lemma {:induction false} RecordComesBack(row: seq<Cell>, tail: string, more: seq<seq<string>>)
    requires row != [] && Follows(tail, more)
    ensures ReadRecords(Join(Escaped(row), ",") + tail) == Some([StringifiedRow(row)] + more)
    decreases |row|
  {
    var s, v, rest := Join(Escaped(row), ",") + tail, row[0], row[1..];
    assert row == [v] + rest;
    assert tail != "" ==> tail[0] == "\r\n"[0];
    if rest == [] {
      OneField(v);
      FieldComesBack(v, tail);
      ReadsRecordEnd(s, Stringified(v), tail, more);
    } else {
      var text := Join(Escaped(rest), ",") + tail;
      MoreFields(v, rest);
      assert s == Escape(v) + ("," + text);
      FieldComesBack(v, "," + text);
      RecordComesBack(rest, tail, more);
      ReadsComma(s, Stringified(v), text, [StringifiedRow(rest)] + more);
    }
  }

  /** A record of two or more fields always leaves text. */
  lemma RecordHasText(row: seq<Cell>)
    requires |row| >= 2
    ensures Join(Escaped(row), ",") != ""
  {
    assert |Escaped(row)| >= 2;
  }

  lemma LinesHaveText(rows: seq<seq<Cell>>)
    requires rows != [] && |rows[0]| >= 2
    ensures Join(Lines(rows), "\r\n") != ""
  {
    RecordHasText(rows[0]);
    if |rows| > 1 { assert |Lines(rows)| >= 2; }
  }

  lemma LineFollows(rest: string, more: seq<seq<string>>)
    requires rest != "" && ReadRecords(rest) == Some(more)
    ensures Follows("\r\n" + rest, more)
  {
    assert ("\r\n" + rest)[2..] == rest;
  }

  lemma OneLine(row: seq<Cell>)
    ensures Join(Lines([row]), "\r\n") == Join(Escaped(row), ",") + ""
    ensures StringifiedRows([row]) == [StringifiedRow(row)] + []
  {
    assert [row][1..] == [];
    assert Lines([row]) == [Join(Escaped(row), ",")];
  }

  lemma MoreLines(row: seq<Cell>, rows: seq<seq<Cell>>)
    requires rows != []
    ensures Join(Lines([row] + rows), "\r\n") == Join(Escaped(row), ",") + ("\r\n" + Join(Lines(rows), "\r\n"))
    ensures StringifiedRows([row] + rows) == [StringifiedRow(row)] + StringifiedRows(rows)
  {
    assert ([row] + rows)[1..] == rows;
    assert Lines([row] + rows) == [Join(Escaped(row), ",")] + Lines(rows);
    JoinFirst(Join(Escaped(row), ","), Lines(rows), "\r\n");
  }

  lemma {:induction false} RecordsComeBack(rows: seq<seq<Cell>>)
    requires rows != [] && forall r <- rows :: |r| >= 2
    ensures ReadRecords(Join(Lines(rows), "\r\n")) == Some(StringifiedRows(rows))
    decreases |rows|
  {
    var row, more := rows[0], rows[1..];
    assert rows == [row] + more;
    if more == [] {
      OneLine(row);
      RecordComesBack(row, "", []);
    } else {
      RecordsComeBack(more);
      LinesHaveText(more);
      LineFollows(Join(Lines(more), "\r\n"), StringifiedRows(more));
      RecordComesBack(row, "\r\n" + Join(Lines(more), "\r\n"), StringifiedRows(more));
      MoreLines(row, more);
    }
  }

  /** Whatever the fields contain, the file reads back as the stringified rows. */
  lemma CsvComesBack(rows: seq<seq<Cell>>)
    requires rows != [] && forall r <- rows :: |r| >= 2
    ensures ReadCsv(Csv(rows)) == Some(StringifiedRows(rows))
  {
    RecordsComeBack(rows);
    assert Csv(rows)[1..] == Join(Lines(rows), "\r\n");
  }

  // ---- Results of a run ------------------------------------------------------------------

  datatype Outcome = Heavy | SuperGrok | Free | WrongPass | Blocked | ProxyDie | Unknown

  datatype Check = Check(plan: Option<string>, expires: Option<string>, daysRemaining: Option<int>,
                         proxy: Option<string>, error: Option<string>, errorType: Option<string>)

  datatype Account = Account(user: string, pwd: string, labelText: string, result: Option<Check>)

  function OutcomeOf(result: Option<Check>): Outcome {
    if result == None || TextOr(result.value.error) != "" then
      var et := if result.Some? then result.value.errorType else None;
      if et == Some("blocked") then Blocked
      else if et == Some("wrong_password") then WrongPass
      else if et == Some("proxy_die") then ProxyDie
      else Unknown
    else if TextOr(result.value.plan) == "SuperGrok Heavy" then Heavy
    else if TextOr(result.value.plan) == "SuperGrok" then SuperGrok
    else Free
  }

  function StatusCode(o: Outcome): int {
    match o
    case Heavy => 1
    case SuperGrok => 2
    case Free => 3
    case WrongPass => 4
    case Blocked => 5
    case Unknown => 6
    case ProxyDie => 7
  }

  function StatusName(o: Outcome): string {
    match o
    case Heavy => "HEAVY"
    case SuperGrok => "SUPERGROK"
    case Free => "FREE"
    case WrongPass => "WRONGPASS"
    case Blocked => "BLOCK"
    case Unknown => "UNKNOWN"
    case ProxyDie => "PROXYDIE"
  }

  function TextOr(o: Option<string>): string { if o.Some? then o.value else "" }

  function AccountLine(a: Account): string {
    if a.labelText != "" then a.user + "|" + a.pwd + "|" + a.labelText else a.user + " " + a.pwd
  }

  function HeaderRow(): (r: seq<Cell>)
    ensures |r| == 11
  {
    [Str("status_code"), Str("status"), Str("email"), Str("password"), Str("label"), Str("plan"), Str("expires"),
     Str("days_remaining"), Str("proxy"), Str("error_type"), Str("error")]
  }

  function RowOf(a: Account): (r: seq<Cell>)
    ensures |r| == 11
  {
    var r := if a.result.Some? then a.result.value else Check(None, None, None, None, None, None);
    var o := OutcomeOf(a.result);
    [Num(StatusCode(o)), Str(StatusName(o)), Str(a.user), Str(a.pwd), Str(a.labelText),
     Str(TextOr(r.plan)), Str(TextOr(r.expires)), if r.daysRemaining.Some? then Num(r.daysRemaining.value) else Str(""),
     Str(TextOr(r.proxy)), Str(TextOr(r.errorType)), Str(TextOr(r.error))]
  }

  function TableOf(accounts: seq<Account>): (rows: seq<seq<Cell>>)
    ensures |rows| == |accounts| + 1
    ensures rows[0] == HeaderRow() && forall i :: 0 <= i < |accounts| ==> rows[i + 1] == RowOf(accounts[i])
  {
    if accounts == [] then [HeaderRow()]
    else TableOf(accounts[..|accounts| - 1]) + [RowOf(accounts[|accounts| - 1])]
  }

  /** The lines of the accounts with one outcome, in order. */
  function LinesWith(accounts: seq<Account>, o: Outcome): seq<string> {
    if accounts == [] then []
    else
      var last := accounts[|accounts| - 1];
      var earlier := LinesWith(accounts[..|accounts| - 1], o);
      if OutcomeOf(last.result) == o then earlier + [AccountLine(last)] else earlier
  }

  lemma StringifiedAt(row: seq<Cell>, k: nat)
    requires k < |row|
    ensures StringifiedRow(row)[k] == Stringified(row[k])
  {
    if k > 0 { StringifiedAt(row[1..], k - 1); }
  }

  lemma StringifiedRowAt(rows: seq<seq<Cell>>, k: nat)
    requires k < |rows|
    ensures StringifiedRows(rows)[k] == StringifiedRow(rows[k])
  {
    if k > 0 { StringifiedRowAt(rows[1..], k - 1); }
  }

  lemma {:induction false} RowsAreWide(accounts: seq<Account>)
    ensures forall r <- TableOf(accounts) :: |r| == 11
  {
    if accounts != [] { RowsAreWide(accounts[..|accounts| - 1]); }
  }

  lemma CsvRecordComesBack(rows: seq<seq<Cell>>, i: nat)
    requires rows != [] && i < |rows| && forall r <- rows :: |r| == 11
    ensures var r := ReadCsv(Csv(rows)); r.Some? && |r.value| == |rows| && r.value[i] == StringifiedRow(rows[i])
  {
    CsvComesBack(rows);
    StringifiedRowAt(rows, i);
  }

  lemma CsvCellComesBack(rows: seq<seq<Cell>>, i: nat, k: nat)
    requires rows != [] && forall r <- rows :: |r| == 11
    requires i < |rows| && k < 11
    ensures var r := ReadCsv(Csv(rows));
            r.Some? && |r.value| == |rows| && |r.value[i]| == 11 && r.value[i][k] == Stringified(rows[i][k])
  {
    CsvComesBack(rows);
    StringifiedRowAt(rows, i);
    assert rows[i] in rows;
    StringifiedAt(rows[i], k);
  }

  /** The saved table reads back cell by cell, whatever names, passwords, labels and error texts
      contain. Record 0 is the header and record i + 1 tells of account i (see TableOf). */
  lemma SavedTableReadsBack(accounts: seq<Account>, i: nat, k: nat)
    requires i <= |accounts| && k < 11
    ensures var r := ReadCsv(Csv(TableOf(accounts)));
      && r.Some? && |r.value| == |accounts| + 1 && |r.value[i]| == 11
      && |TableOf(accounts)[i]| == 11 && r.value[i][k] == Stringified(TableOf(accounts)[i][k])
  {
    RowsAreWide(accounts);
    assert TableOf(accounts)[i] in TableOf(accounts);
    CsvCellComesBack(TableOf(accounts), i, k);
  }

  lemma CodesTell(a: Outcome, b: Outcome)
    ensures Stringified(Num(StatusCode(a))) == Stringified(Num(StatusCode(b))) <==> a == b
  {
    var x: nat, y: nat := StatusCode(a), StatusCode(b);
    assert DecimalNat(x) == [Digit(x)] && DecimalNat(y) == [Digit(y)];
    assert Digit(x) == Digit(y) ==> x == y;
  }

  /** The first column of the saved table tells which group an account went to. */
  lemma SavedCodeTellsOutcome(accounts: seq<Account>, i: nat, o: Outcome)
    requires i < |accounts|
    ensures var r := ReadCsv(Csv(TableOf(accounts)));
      && r.Some? && |r.value| == |accounts| + 1 && |r.value[i + 1]| == 11
      && (r.value[i + 1][0] == Stringified(Num(StatusCode(o))) <==> OutcomeOf(accounts[i].result) == o)
  {
    SavedTableReadsBack(accounts, i + 1, 0);
    CodesTell(OutcomeOf(accounts[i].result), o);
  }

  /** The account has no result, or one with an error text. */
  predicate Faulty(a: Account) {
    match a.result
    case None => true
    case Some(c) => c.error.Some? && c.error.value != ""
  }

  predicate HasErrorType(a: Account, et: string) { a.result.Some? && a.result.value.errorType == Some(et) }

  predicate HasPlan(a: Account, plan: string) { a.result.Some? && a.result.value.plan == Some(plan) }

  /** A column that the check may not have filled. */
  predicate Shows(text: string, a: Account, column: Check -> Option<string>) {
    text == match a.result
            case None => ""
            case Some(c) => if column(c).Some? then column(c).value else ""
  }

  /** The two status columns. */
  predicate TellsOutcome(code: string, name: string, a: Account) {
    && (code == "1" && name == "HEAVY" <==> !Faulty(a) && HasPlan(a, "SuperGrok Heavy"))
    && (code == "2" && name == "SUPERGROK" <==> !Faulty(a) && HasPlan(a, "SuperGrok"))
    && (code == "3" && name == "FREE"
        <==> !Faulty(a) && !HasPlan(a, "SuperGrok Heavy") && !HasPlan(a, "SuperGrok"))
    && (code == "4" && name == "WRONGPASS" <==> Faulty(a) && HasErrorType(a, "wrong_password"))
    && (code == "5" && name == "BLOCK" <==> Faulty(a) && HasErrorType(a, "blocked"))
    && (code == "7" && name == "PROXYDIE" <==> Faulty(a) && HasErrorType(a, "proxy_die"))
    && (code == "6" && name == "UNKNOWN"
        <==> Faulty(a) && !HasErrorType(a, "wrong_password") && !HasErrorType(a, "blocked")
             && !HasErrorType(a, "proxy_die"))
  }

  /** The account's own columns and those of its check. */
  predicate TellsColumns(rec: seq<string>, a: Account) {
    && |rec| == 11
    && rec[2] == a.user && rec[3] == a.pwd && rec[4] == a.labelText
    && Shows(rec[5], a, (c: Check) => c.plan) && Shows(rec[6], a, (c: Check) => c.expires)
    && rec[7] == (if a.result.Some? && a.result.value.daysRemaining.Some?
                  then Decimal(a.result.value.daysRemaining.value) else "")
    && Shows(rec[8], a, (c: Check) => c.proxy) && Shows(rec[9], a, (c: Check) => c.errorType)
    && Shows(rec[10], a, (c: Check) => c.error)
  }

  lemma CodeText(o: Outcome)
    ensures Stringified(Num(StatusCode(o)))
            == match o
               case Heavy => "1"
               case SuperGrok => "2"
               case Free => "3"
               case WrongPass => "4"
               case Blocked => "5"
               case Unknown => "6"
               case ProxyDie => "7"
  {
    var x: nat := StatusCode(o);
    assert DecimalNat(x) == [Digit(x)];
  }

  lemma OutcomeTold(a: Account, code: string, name: string)
    requires code == Stringified(Num(StatusCode(OutcomeOf(a.result)))) && name == StatusName(OutcomeOf(a.result))
    ensures TellsOutcome(code, name, a)
  {
    CodeText(OutcomeOf(a.result));
  }

  lemma RowCells(a: Account, rec: seq<string>)
    requires rec == StringifiedRow(RowOf(a))
    ensures |rec| == 11 && forall k :: 0 <= k < 11 ==> rec[k] == Stringified(RowOf(a)[k])
  {
    forall k | 0 <= k < 11 ensures rec[k] == Stringified(RowOf(a)[k]) { StringifiedAt(RowOf(a), k); }
  }

  lemma StatusTold(a: Account, rec: seq<string>)
    requires rec == StringifiedRow(RowOf(a))
    ensures |rec| == 11 && TellsOutcome(rec[0], rec[1], a)
  {
    RowCells(a, rec);
    assert rec[0] == Stringified(RowOf(a)[0]) && rec[1] == Stringified(RowOf(a)[1]);
    OutcomeTold(a, rec[0], rec[1]);
  }

  lemma ColumnsTold(a: Account, rec: seq<string>)
    requires rec == StringifiedRow(RowOf(a))
    ensures TellsColumns(rec, a)
  {
    RowCells(a, rec);
  }

  lemma SavedRecord(accounts: seq<Account>, i: nat) returns (rec: seq<string>)
    requires i < |accounts|
    ensures var r := ReadCsv(Csv(TableOf(accounts)));
            r.Some? && |r.value| == |accounts| + 1 && r.value[i + 1] == rec
    ensures rec == StringifiedRow(RowOf(accounts[i]))
  {
    RowsAreWide(accounts);
    var rows := TableOf(accounts);
    assert rows[i + 1] == RowOf(accounts[i]);
    CsvRecordComesBack(rows, i + 1);
    rec := StringifiedRow(rows[i + 1]);
  }

  /** What record i + 1 of the saved table says about account i: its code, its own columns, and the columns of
      its check. */
  lemma SavedRowTells(accounts: seq<Account>, i: nat) returns (rec: seq<string>)
    requires i < |accounts|
    ensures var r := ReadCsv(Csv(TableOf(accounts)));
            r.Some? && |r.value| == |accounts| + 1 && r.value[i + 1] == rec
    ensures |rec| == 11 && TellsOutcome(rec[0], rec[1], accounts[i]) && TellsColumns(rec, accounts[i])
  {
    rec := SavedRecord(accounts, i);
    StatusTold(accounts[i], rec);
    ColumnsTold(accounts[i], rec);
  }

  /** Every account's line is in the group of its outcome: user, password and label between bars, or user and
      password alone. */
  lemma {:induction false} LineInGroup(accounts: seq<Account>, i: nat)
    requires i < |accounts|
    ensures var a := accounts[i];
            (if a.labelText == "" then a.user + " " + a.pwd else a.user + "|" + a.pwd + "|" + a.labelText)
            in LinesWith(accounts, OutcomeOf(a.result))
    decreases |accounts|
  {
    if i < |accounts| - 1 { LineInGroup(accounts[..|accounts| - 1], i); }
  }

  /** The groups lose no account and list none twice. */
  lemma {:induction false} GroupsPartition(accounts: seq<Account>)
    ensures |LinesWith(accounts, Heavy)| + |LinesWith(accounts, SuperGrok)| + |LinesWith(accounts, Free)|
            + |LinesWith(accounts, WrongPass)| + |LinesWith(accounts, Blocked)| + |LinesWith(accounts, ProxyDie)|
            + |LinesWith(accounts, Unknown)| == |accounts|
  {
    if accounts != [] { GroupsPartition(accounts[..|accounts| - 1]); }
  }

  datatype File = File(outcome: Outcome, content: string)

  const ORDER := [Heavy, SuperGrok, Free, WrongPass, Blocked, ProxyDie, Unknown]

  /** One file for each non-empty group, in the given order. */
  function FilesOf(order: seq<Outcome>, accounts: seq<Account>): seq<File> {
    if order == [] then []
    else
      var o := order[|order| - 1];
      var earlier := FilesOf(order[..|order| - 1], accounts);
      if LinesWith(accounts, o) == [] then earlier else earlier + [File(o, Join(LinesWith(accounts, o), "\n"))]
  }

  /** The files, in order, are those of the non-empty groups, each with its group's lines. */
  lemma {:induction false} FilesAre(order: seq<Outcome>, accounts: seq<Account>)
    ensures forall f :: f in FilesOf(order, accounts) <==>
              && f.outcome in order && LinesWith(accounts, f.outcome) != []
              && f.content == Join(LinesWith(accounts, f.outcome), "\n")
    decreases |order|
  {
    if order != [] {
      FilesAre(order[..|order| - 1], accounts);
      assert order == order[..|order| - 1] + [order[|order| - 1]];
    }
  }

  /** Every group holds its accounts' lines. */
  ghost predicate Grouped(groups: map<Outcome, seq<string>>, accounts: seq<Account>) {
    forall o :: o in groups && groups[o] == LinesWith(accounts, o)
  }

  method EmptyGroups() returns (groups: map<Outcome, seq<string>>)
    ensures Grouped(groups, [])
  {
    groups := map[Heavy := [], SuperGrok := [], Free := [], WrongPass := [], Blocked := [], ProxyDie := [],
                  Unknown := []];
    forall o: Outcome ensures o in groups && groups[o] == [] {
      match o {
        case Heavy => case SuperGrok => case Free => case WrongPass => case Blocked => case ProxyDie => case Unknown =>
      }
    }
  }

  lemma GroupOneMore(groups: map<Outcome, seq<string>>, accounts: seq<Account>, a: Account)
    requires Grouped(groups, accounts)
    ensures var o := OutcomeOf(a.result); Grouped(groups[o := groups[o] + [AccountLine(a)]], accounts + [a])
  {
    assert (accounts + [a])[..|accounts|] == accounts;
  }

  lemma TableOneMore(accounts: seq<Account>, a: Account)
    ensures TableOf(accounts + [a]) == TableOf(accounts) + [RowOf(a)]
  {
    assert (accounts + [a])[..|accounts|] == accounts;
  }

  /** One pass over the accounts fills the groups and the table. */
  method Tabulate(accounts: seq<Account>) returns (groups: map<Outcome, seq<string>>, rows: seq<seq<Cell>>)
    ensures Grouped(groups, accounts)
    ensures rows == TableOf(accounts)
  {
    groups := EmptyGroups();
    rows := [HeaderRow()];
    assert accounts[..0] == [];
    for i := 0 to |accounts|
      invariant Grouped(groups, accounts[..i])
      invariant rows == TableOf(accounts[..i])
    {
      var a := accounts[i];
      assert accounts[..i + 1] == accounts[..i] + [a];
      GroupOneMore(groups, accounts[..i], a);
      TableOneMore(accounts[..i], a);
      var o := OutcomeOf(a.result);
      groups := groups[o := groups[o] + [AccountLine(a)]];
      rows := rows + [RowOf(a)];
    }
    assert accounts[..|accounts|] == accounts;
  }

  method GroupFiles(order: seq<Outcome>, groups: map<Outcome, seq<string>>, ghost accounts: seq<Account>)
    returns (files: seq<File>)
    requires Grouped(groups, accounts)
    ensures files == FilesOf(order, accounts)
  {
    files := [];
    for k := 0 to |order|
      invariant files == FilesOf(order[..k], accounts)
    {
      assert order[..k + 1][..k] == order[..k];
      var o := order[k];
      if |groups[o]| > 0 { files := files + [File(o, Join(groups[o], "\n"))]; }
    }
    assert order[..|order|] == order;
  }

  method SaveResults(accounts: seq<Account>) returns (groups: map<Outcome, seq<string>>, files: seq<File>, csv: string)
    ensures Grouped(groups, accounts)
    ensures files == FilesOf(ORDER, accounts)
    ensures csv == Csv(TableOf(accounts))
  {
    var rows: seq<seq<Cell>>;
    groups, rows := Tabulate(accounts);
    csv := Csv(rows);
    files := GroupFiles(ORDER, groups, accounts);
  }
}
