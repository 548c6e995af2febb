/** The reader of the security definitions file: one record per line, each field written
    as `tag=value` and ended by the SOH character. */
module SecdefReader {
  import opened Sequences

  const SOH: char := 1 as char

  predicate IsSeparator(c: char) { c == SOH || c == '\n' }

  predicate IsDigit(c: char) { '0' <= c <= '9' }

  /** The recognised tags: currency, security id, symbol, security type, exchange,
      multiplier, minimum trade volume, price increment, maximum trade volume, market
      segment, asset and display factor. */
  predicate Recognised(tag: nat) {
    tag in {15, 48, 55, 167, 207, 231, 562, 969, 1140, 1300, 6937, 9787}
  }

  /** A record: the text of each recognised field. */
  type Record = map<nat, string>

  function Set(r: Record, tag: nat, value: string): Record {
    if Recognised(tag) then r[tag := value] else r
  }

  // ---------- text ----------

  /** The position of the first separator, or the length of the text. */
  function FieldEnd(text: string): (n: nat)
    ensures n <= |text|
  {
    if text == "" || IsSeparator(text[0]) then 0 else 1 + FieldEnd(text[1..])
  }

  lemma {:induction false} FieldEndIs(text: string)
    ensures var n := FieldEnd(text);
      (forall i :: 0 <= i < n ==> !IsSeparator(text[i])) && (n < |text| ==> IsSeparator(text[n]))
  {
    if text != "" && !IsSeparator(text[0]) {
      FieldEndIs(text[1..]);
      assert forall i :: 1 <= i < |text| ==> text[i] == text[1..][i - 1];
    }
  }

  /** The position of the first equals sign, or the length of the field. */
  function KeyEnd(field: string): (n: nat)
    ensures n <= |field|
  {
    if field == "" || field[0] == '=' then 0 else 1 + KeyEnd(field[1..])
  }

  lemma {:induction false} KeyEndIs(field: string)
    ensures var n := KeyEnd(field);
      (forall i :: 0 <= i < n ==> field[i] != '=') && (n < |field| ==> field[n] == '=')
  {
    if field != "" && field[0] != '=' {
      KeyEndIs(field[1..]);
      assert forall i :: 1 <= i < |field| ==> field[i] == field[1..][i - 1];
    }
  }

  /** The decimal value of a tag; a key that is not a number stands for no tag at all. */
  function TagOf(key: string): nat {
    if AllDigits(key) then Decimal(key) else 0
  }

  predicate AllDigits(key: string) { forall i :: 0 <= i < |key| ==> IsDigit(key[i]) }

  function Decimal(key: string): nat
    requires AllDigits(key)
  {
    if key == "" then 0 else 10 * Decimal(key[..|key| - 1]) + (key[|key| - 1] as int - '0' as int)
  }

  /** What the handler was given, and whether the reader ran to the end: a field without
      an equals sign, and a text that does not end with a separator, make it throw. */
  datatype Outcome = Outcome(records: seq<Record>, ok: bool)

  function Parse(text: string, record: Record): Outcome
    decreases |text|
  {
    if text == "" then Outcome([], true)
    else
      var n := FieldEnd(text);
      if n == 0 then
        var o := Parse(text[1..], map[]);
        o.(records := [record] + o.records)
      else if KeyEnd(text[..n]) == n || n == |text| then Outcome([], false)
      else Parse(text[n + 1..], Assigned(record, text[..n]))
  }

  function Assigned(r: Record, field: string): Record
    requires KeyEnd(field) < |field|
  {
    Set(r, TagOf(field[..KeyEnd(field)]), field[KeyEnd(field) + 1..])
  }

  // ---------- the code ----------

  method Dispatch(buffer: string) returns (records: seq<Record>, ok: bool)
    ensures Outcome(records, ok) == Parse(buffer, map[])
  {
    records, ok := [], true;
    var tmp, record := buffer, map[];
    ghost var goal := Parse(buffer, map[]);
    while tmp != ""
      invariant ok && Remains(goal, records, tmp, record)
      decreases |tmp|
    {
      ok, records, tmp, record := TakeTurn(records, tmp, record, goal);
      if !ok {
        return;
      }
    }
  }

  /** With `records` handed over, the rest of the text leads to the outcome `goal`. */
  ghost predicate Remains(goal: Outcome, records: seq<Record>, tmp: string, record: Record) {
    goal == Outcome(records + Parse(tmp, record).records, Parse(tmp, record).ok)
  }

  method TakeTurn(records: seq<Record>, tmp: string, record: Record, ghost goal: Outcome)
    returns (ok: bool, records': seq<Record>, tmp': string, record': Record)
    requires tmp != "" && Remains(goal, records, tmp, record)
    ensures ok ==> |tmp'| < |tmp| && Remains(goal, records', tmp', record')
    ensures !ok ==> goal == Outcome(records', false)
  {
    var closed;
    ok, closed, tmp', record' := TakeField(tmp, record);
    records' := records;
    if ok && closed {
      Rebracket(records, [record], Parse(tmp', record').records);
      records' := records + [record];
    }
  }

  /** One turn of the loop: an empty field closes the record, any other sets a field. */
  method TakeField(tmp: string, record: Record) returns (ok: bool, closed: bool, tmp': string, record': Record)
    requires tmp != ""
    ensures !ok ==> Parse(tmp, record) == Outcome([], false)
    ensures ok ==>
      && |tmp'| < |tmp|
      && Parse(tmp, record).ok == Parse(tmp', record').ok
      && Parse(tmp, record).records == (if closed then [record] else []) + Parse(tmp', record').records
  {
    ok, closed, tmp', record' := true, false, tmp, record;
    var n := FieldEnd(tmp);
    var field := tmp[..n];
    if field == "" {
      closed := true;
      record' := map[];
    } else {
      var k := KeyEnd(field);
      if k == |field| {
        return false, false, tmp, record;
      }
      record' := Set(record, TagOf(field[..k]), field[k + 1..]);
    }
    if n == |tmp| {
      return false, false, tmp, record;
    }
    tmp' := tmp[n + 1..];
  }

  // ---------- the printer ----------

  datatype Field = Field(tag: nat, value: string)

  function Digits(n: nat): (s: string)
    ensures s != "" && AllDigits(s)
  {
    if n < 10 then [('0' as int + n) as char] else Digits(n / 10) + [('0' as int + n % 10) as char]
  }

  predicate Printable(f: Field) {
    forall i :: 0 <= i < |f.value| ==> !IsSeparator(f.value[i])
  }

  predicate AllPrintable(fs: seq<Field>) { forall i :: 0 <= i < |fs| ==> Printable(fs[i]) }

  function PrintField(f: Field): string { Digits(f.tag) + "=" + f.value }

  function PrintFields(fs: seq<Field>): string {
    if fs == [] then "" else PrintField(fs[0]) + [SOH] + PrintFields(fs[1..])
  }

  function PrintAll(rs: seq<seq<Field>>): string {
    if rs == [] then "" else PrintFields(rs[0]) + "\n" + PrintAll(rs[1..])
  }

  /** The record that a list of fields describes: the last value of a tag counts, other
      tags do not. */
  function Meaning(r: Record, fs: seq<Field>): Record
    decreases |fs|
  {
    if fs == [] then r else Meaning(Set(r, fs[0].tag, fs[0].value), fs[1..])
  }

  function Meanings(rs: seq<seq<Field>>): seq<Record> {
    if rs == [] then [] else [Meaning(map[], rs[0])] + Meanings(rs[1..])
  }

  lemma {:induction false} TagUndoesDigits(n: nat)
    ensures TagOf(Digits(n)) == n
  {
    var s := Digits(n);
    if n < 10 {
      assert s[..0] == "" && Decimal("") == 0;
    } else {
      assert s[..|s| - 1] == Digits(n / 10);
      TagUndoesDigits(n / 10);
    }
  }

  /** The first separator behind a text without separators is the one that follows. */
  lemma {:induction false} EndOfField(field: string, c: char, rest: string)
    requires (forall i :: 0 <= i < |field| ==> !IsSeparator(field[i])) && IsSeparator(c)
    ensures FieldEnd(field + [c] + rest) == |field|
  {
    if field != "" {
      assert (field + [c] + rest)[1..] == field[1..] + [c] + rest;
      EndOfField(field[1..], c, rest);
    }
  }

  lemma {:induction false} EndOfKey(key: string, value: string)
    requires forall i :: 0 <= i < |key| ==> key[i] != '='
    ensures KeyEnd(key + "=" + value) == |key|
  {
    if key != "" {
      assert (key + "=" + value)[1..] == key[1..] + "=" + value;
      EndOfKey(key[1..], value);
    }
  }

  /** Either separator ends a field. */
  lemma FieldReadsBack(f: Field, c: char, rest: string, r: Record)
    requires Printable(f) && IsSeparator(c)
    ensures Parse(PrintField(f) + [c] + rest, r) == Parse(rest, Set(r, f.tag, f.value))
  {
    var field, key := PrintField(f), Digits(f.tag);
    var text := field + [c] + rest;
    EndOfField(field, c, rest);
    EndOfKey(key, f.value);
    TagUndoesDigits(f.tag);
    assert text[..|field|] == field && text[|field| + 1..] == rest;
    assert field[..|key|] == key && field[|key| + 1..] == f.value;
  }

  lemma {:induction false} FieldsReadBack(fs: seq<Field>, rest: string, r: Record)
    requires AllPrintable(fs)
    ensures Parse(PrintFields(fs) + rest, r) == Parse(rest, Meaning(r, fs))
    decreases |fs|
  {
    if fs == [] {
      assert PrintFields(fs) + rest == rest;
    } else {
      var later := PrintFields(fs[1..]) + rest;
      assert PrintFields(fs) + rest == PrintField(fs[0]) + [SOH] + later;
      FieldReadsBack(fs[0], SOH, later, r);
      FieldsReadBack(fs[1..], rest, Set(r, fs[0].tag, fs[0].value));
    }
  }

  lemma NewlineCloses(r: Record, rest: string)
    ensures Parse("\n" + rest, r) == Outcome([r] + Parse(rest, map[]).records, Parse(rest, map[]).ok)
  {
    assert FieldEnd("\n" + rest) == 0 && ("\n" + rest)[1..] == rest;
  }

  /** Any list of records, printed and read: one call per record, in order, with exactly
      the recognised fields of that record and nothing of its neighbours. */
  lemma {:induction false} ParseUndoesPrint(rs: seq<seq<Field>>)
    requires forall i :: 0 <= i < |rs| ==> AllPrintable(rs[i])
    ensures Parse(PrintAll(rs), map[]) == Outcome(Meanings(rs), true)
  {
    if rs != [] {
      var later := PrintAll(rs[1..]);
      var text := PrintAll(rs);
      assert text == PrintFields(rs[0]) + ("\n" + later);
      FieldsReadBack(rs[0], "\n" + later, map[]);
      NewlineCloses(Meaning(map[], rs[0]), later);
      ParseUndoesPrint(rs[1..]);
    }
  }

  // ---------- which texts are read to the end ----------

  /** Characters `i` to `j` lie between two separators, or the ends of the text. */
  ghost predicate Stretch(text: string, i: int, j: int) {
    && 0 <= i < j <= |text|
    && (forall k :: i <= k < j ==> !IsSeparator(text[k]))
    && (i == 0 || IsSeparator(text[i - 1]))
    && (j == |text| || IsSeparator(text[j]))
  }

  ghost predicate HasEquals(text: string, i: int, j: int)
    requires 0 <= i <= j <= |text|
  {
    exists k :: i <= k < j && text[k] == '='
  }

  ghost predicate FieldOk(text: string, i: int, j: int) { Stretch(text, i, j) ==> HasEquals(text, i, j) }

  ghost predicate AllFieldsOk(text: string) { forall i, j :: FieldOk(text, i, j) }

  /** The stretches behind a separator are those of the rest of the text. */
  lemma FieldOkShifts(text: string, m: nat, rest: string, i: int, j: int, i': int, j': int)
    requires 0 < m <= |text| && IsSeparator(text[m - 1]) && rest == text[m..]
    requires i == i' + m && j == j' + m && i' >= 0
    ensures FieldOk(text, i, j) <==> FieldOk(rest, i', j')
  {
    assert forall k :: m <= k < |text| ==> text[k] == rest[k - m];
    assert forall k :: 0 <= k < |rest| ==> rest[k] == text[k + m];
    assert Stretch(text, i, j) <==> Stretch(rest, i', j');
    if Stretch(text, i, j) && HasEquals(text, i, j) {
      var k :| i <= k < j && text[k] == '=';
      assert rest[k - m] == '=';
    }
  }

  /** A stretch is the first field or lies behind it. */
  lemma FirstStretch(text: string, n: nat, i: int, j: int)
    requires n == FieldEnd(text) < |text|
    ensures IsSeparator(text[n]) && (Stretch(text, i, j) ==> i > n || (i == 0 && j == n))
  {
    FieldEndIs(text);
  }

  lemma OkBehindField(text: string, n: nat)
    requires n == FieldEnd(text) < |text|
    ensures AllFieldsOk(text) ==> AllFieldsOk(text[n + 1..]) && (n > 0 ==> HasEquals(text, 0, n))
  {
    FieldEndIs(text);
    var rest := text[n + 1..];
    if AllFieldsOk(text) {
      assert FieldOk(text, 0, n);
      forall i, j
        ensures FieldOk(rest, i, j)
      {
        if i >= 0 {
          FieldOkShifts(text, n + 1, rest, i + n + 1, j + n + 1, i, j);
          assert FieldOk(text, i + n + 1, j + n + 1);
        }
      }
    }
  }

  lemma OkWithField(text: string, n: nat)
    requires n == FieldEnd(text) < |text|
    requires AllFieldsOk(text[n + 1..]) && (n > 0 ==> HasEquals(text, 0, n))
    ensures AllFieldsOk(text)
  {
    var rest := text[n + 1..];
    forall i, j
      ensures FieldOk(text, i, j)
    {
      assert FieldOk(rest, i - n - 1, j - n - 1);
      OneFieldOk(text, n, rest, i, j);
    }
  }

  lemma OneFieldOk(text: string, n: nat, rest: string, i: int, j: int)
    requires n == FieldEnd(text) < |text| && rest == text[n + 1..] && (n > 0 ==> HasEquals(text, 0, n))
    requires FieldOk(rest, i - n - 1, j - n - 1)
    ensures FieldOk(text, i, j)
  {
    FirstStretch(text, n, i, j);
    if i > n {
      FieldOkShifts(text, n + 1, rest, i, j, i - n - 1, j - n - 1);
    }
  }

  /** All stretches have an equals sign exactly if those behind the first field have, and
      the first field has if it is not empty. */
  lemma AllFieldsOkIff(text: string, n: nat)
    requires n == FieldEnd(text) < |text|
    ensures AllFieldsOk(text) <==> AllFieldsOk(text[n + 1..]) && (n > 0 ==> KeyEnd(text[..n]) < n)
  {
    FieldHasEquals(text, n);
    OkBehindField(text, n);
    if AllFieldsOk(text[n + 1..]) && (n > 0 ==> HasEquals(text, 0, n)) {
      OkWithField(text, n);
    }
  }

  lemma FieldHasEquals(text: string, n: nat)
    requires n <= |text|
    ensures HasEquals(text, 0, n) <==> KeyEnd(text[..n]) < n
  {
    var k := KeyEnd(text[..n]);
    KeyEndIs(text[..n]);
    if k < n {
      assert text[k] == '=';
    } else {
      assert forall i :: 0 <= i < n ==> text[..n][i] == text[i];
    }
  }

  /** The separators are the character with code one and the end of a line. */
  lemma SeparatorsAre(c: char)
    ensures IsSeparator(c) <==> c as int == 1 || c == '\n'
  {
  }

  /** The text ends with a separator, and every nonempty stretch has an equals sign. */
  ghost predicate ReadsToEnd(text: string) {
    text == "" || (IsSeparator(text[|text| - 1]) && AllFieldsOk(text))
  }

  /** The reader gets to the end of exactly these texts; on all others it throws. */
  lemma {:induction false} ReadToTheEndIff(text: string, r: Record)
    ensures Parse(text, r).ok <==> ReadsToEnd(text)
    decreases |text|
  {
    if text != "" {
      var n := FieldEnd(text);
      FieldEndIs(text);
      if n == |text| {
        assert !Parse(text, r).ok;
      } else {
        var rest := text[n + 1..];
        AllFieldsOkIff(text, n);
        RestIsReadable(text, n);
        if n == 0 {
          ReadToTheEndIff(rest, map[]);
          ClosingTurn(text, r);
        } else {
          if KeyEnd(text[..n]) < n {
            ReadToTheEndIff(rest, Assigned(r, text[..n]));
          }
          SettingTurn(text, r, n);
        }
      }
    }
  }

  lemma ClosingTurn(text: string, r: Record)
    requires text != "" && FieldEnd(text) == 0
    ensures Parse(text, r).ok == Parse(text[1..], map[]).ok
  {
  }

  lemma SettingTurn(text: string, r: Record, n: nat)
    requires 0 < n == FieldEnd(text) < |text|
    ensures Parse(text, r).ok <==> KeyEnd(text[..n]) < n && Parse(text[n + 1..], Assigned(r, text[..n])).ok
  {
    if KeyEnd(text[..n]) == n {
      assert Parse(text, r) == Outcome([], false);
    } else {
      assert Parse(text, r) == Parse(text[n + 1..], Assigned(r, text[..n]));
    }
  }

  lemma RestIsReadable(text: string, n: nat)
    requires n < |text| && IsSeparator(text[n])
    requires AllFieldsOk(text) ==> AllFieldsOk(text[n + 1..])
    ensures IsSeparator(text[|text| - 1]) && AllFieldsOk(text[n + 1..]) <==> ReadsToEnd(text[n + 1..])
  {
    var rest := text[n + 1..];
    if rest != "" {
      assert rest[|rest| - 1] == text[|text| - 1];
    }
  }

  // ---------- lines ----------

  /** A line of fields, the last of which may lack its own separator. */
  function LineText(fs: seq<Field>, last: Field, ended: bool): string {
    PrintFields(fs) + (PrintField(last) + (if ended then [SOH] else "")) + "\n"
  }

  /** Two lines stay two records if and only if the last field of the first line has its
      own separator; otherwise the line end takes its place, and the two lines are one
      record. */
  lemma TwoLinesIff(fs: seq<Field>, last: Field, ended: bool, gs: seq<Field>)
    requires AllPrintable(fs + [last]) && AllPrintable(gs)
    ensures var o := Parse(LineText(fs, last, ended) + (PrintFields(gs) + "\n"), map[]);
      && o == Outcome(if ended then [Meaning(map[], fs + [last]), Meaning(map[], gs)]
                      else [Meaning(map[], fs + [last] + gs)], true)
      && (|o.records| == 2 <==> ended)
  {
    FirstLine(fs, last, ended, PrintFields(gs) + "\n");
    assert Printable(last) && AllPrintable(gs) by {
      assert (fs + [last])[|fs|] == last;
    }
    LastField(Meaning(map[], fs), last, ended, gs);
    MeaningAppend(map[], fs + [last], gs);
  }

  /** The fields in front of the last one read back, whatever follows. */
  lemma FirstLine(fs: seq<Field>, last: Field, ended: bool, rest: string)
    requires AllPrintable(fs + [last])
    ensures var r := Meaning(map[], fs);
      && Meaning(map[], fs + [last]) == Set(r, last.tag, last.value)
      && Parse(LineText(fs, last, ended) + rest, map[])
         == Parse((PrintField(last) + (if ended then [SOH] else "")) + "\n" + rest, r)
  {
    assert AllPrintable(fs) by {
      assert forall i :: 0 <= i < |fs| ==> (fs + [last])[i] == fs[i];
    }
    MeaningAppend(map[], fs, [last]);
    MeaningOfOne(Meaning(map[], fs), last);
    var text := (PrintField(last) + (if ended then [SOH] else "")) + "\n" + rest;
    assert LineText(fs, last, ended) + rest == PrintFields(fs) + text;
    FieldsReadBack(fs, text, map[]);
  }

  lemma LastField(r: Record, last: Field, ended: bool, gs: seq<Field>)
    requires Printable(last) && AllPrintable(gs)
    ensures var r' := Set(r, last.tag, last.value);
      Parse((PrintField(last) + (if ended then [SOH] else "")) + "\n" + (PrintFields(gs) + "\n"), r)
      == Outcome(if ended then [r', Meaning(map[], gs)] else [Meaning(r', gs)], true)
  {
    var r', second := Set(r, last.tag, last.value), PrintFields(gs) + "\n";
    SecondLine(gs, map[]);
    SecondLine(gs, r');
    if ended {
      EndedField(r, last, second);
    } else {
      assert PrintField(last) + "" + "\n" + second == PrintField(last) + ['\n'] + second;
      FieldReadsBack(last, '\n', second, r);
    }
  }

  lemma EndedField(r: Record, last: Field, rest: string)
    requires Printable(last)
    ensures Parse(PrintField(last) + [SOH] + "\n" + rest, r)
         == Outcome([Set(r, last.tag, last.value)] + Parse(rest, map[]).records, Parse(rest, map[]).ok)
  {
    assert PrintField(last) + [SOH] + "\n" + rest == PrintField(last) + [SOH] + ("\n" + rest);
    FieldReadsBack(last, SOH, "\n" + rest, r);
    NewlineCloses(Set(r, last.tag, last.value), rest);
  }

  lemma SecondLine(gs: seq<Field>, r: Record)
    requires AllPrintable(gs)
    ensures Parse(PrintFields(gs) + "\n", r) == Outcome([Meaning(r, gs)], true)
  {
    FieldsReadBack(gs, "\n", r);
    NewlineCloses(Meaning(r, gs), "");
    assert "\n" + "" == "\n" && Parse("", map[]) == Outcome([], true);
  }

  lemma {:induction false} MeaningAppend(r: Record, fs: seq<Field>, gs: seq<Field>)
    ensures Meaning(r, fs + gs) == Meaning(Meaning(r, fs), gs)
    decreases |fs|
  {
    if fs == [] {
      assert fs + gs == gs;
    } else {
      assert (fs + gs)[1..] == fs[1..] + gs;
      MeaningAppend(Set(r, fs[0].tag, fs[0].value), fs[1..], gs);
    }
  }

  lemma MeaningOfOne(r: Record, f: Field)
    ensures Meaning(r, [f]) == Set(r, f.tag, f.value)
  {
    assert [f][1..] == [];
  }

  // ---------- what a record holds ----------

  /** Field `i` is the last one with the tag. */
  ghost predicate LastWith(fs: seq<Field>, i: int, tag: nat) {
    0 <= i < |fs| && fs[i].tag == tag && forall j :: i < j < |fs| ==> fs[j].tag != tag
  }

  ghost predicate NoneWith(fs: seq<Field>, tag: nat) { forall j :: 0 <= j < |fs| ==> fs[j].tag != tag }

  lemma {:induction false} MeaningOfTag(r: Record, fs: seq<Field>, tag: nat)
    ensures var r' := Meaning(r, fs);
      && (!Recognised(tag) || NoneWith(fs, tag) ==>
            (tag in r' <==> tag in r) && (tag in r ==> r'[tag] == r[tag]))
      && (Recognised(tag) ==> forall i :: LastWith(fs, i, tag) ==> tag in r' && r'[tag] == fs[i].value)
    decreases |fs|
  {
    if fs != [] {
      MeaningOfTag(Set(r, fs[0].tag, fs[0].value), fs[1..], tag);
      assert forall j :: 1 <= j < |fs| ==> fs[j] == fs[1..][j - 1];
      assert forall j :: 0 <= j < |fs| - 1 ==> fs[1..][j] == fs[j + 1];
      assert forall i :: i > 0 && LastWith(fs, i, tag) ==> LastWith(fs[1..], i - 1, tag);
    }
  }

  /** A record holds the twelve tags and no others, each if a field has it, and with the value
      of the last field that has it. */
  lemma RecordHoldsLastValues(fs: seq<Field>, tag: nat)
    ensures var r := Meaning(map[], fs);
      && (tag in r <==> tag in {15, 48, 55, 167, 207, 231, 562, 969, 1140, 1300, 6937, 9787} && !NoneWith(fs, tag))
      && forall i :: LastWith(fs, i, tag) && tag in r ==> r[tag] == fs[i].value
  {
    MeaningOfTag(map[], fs, tag);
    if !NoneWith(fs, tag) {
      var i := LastOf(fs, tag);
    }
  }

  lemma {:induction false} LastOf(fs: seq<Field>, tag: nat) returns (i: int)
    requires !NoneWith(fs, tag)
    ensures LastWith(fs, i, tag)
  {
    i := |fs| - 1;
    if fs[i].tag != tag {
      i := LastOf(fs[..i], tag);
    }
  }
}
