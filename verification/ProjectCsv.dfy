/**
 The scanner of project CSV files (section 2 of RFC 4180, with LF and CR accepted as line ends too), and the
 grammar it accepts: exactly the texts that some document of bare and quoted fields prints to.
 */
module ProjectCsv {
  import opened Wrappers
  import opened JsonNumber

  type Record = seq<Text>

  datatype CsvError = InvalidQuoting | UnclosedField

  const COMMA: Unit := 0x2C
  const QUOTE: Unit := 0x22
  const LF: Unit := 0x0A
  const CR: Unit := 0x0D
  const BYTE_ORDER_MARK: Unit := 0xFEFF

  predicate SomeFilled(r: Record) { exists i | 0 <= i < |r| :: r[i] != [] }

  /** A finished line is kept when one of its fields is not empty. */
  function Kept(r: Record): seq<Record> { if SomeFilled(r) then [r] else [] }

  // ---------- The scanner as a state machine ----------

  datatype State = State(records: seq<Record>, record: Record, field: Text, quoted: bool, closed: bool)

  datatype Move = Next(state: State, taken: nat) | Fault(error: CsvError)

  /** What one unit does, knowing whether a quote or an LF comes right after it. */
  function StepOn(s: State, unit: Unit, beforeQuote: bool, beforeLF: bool): (m: Move)
    ensures m.Next? ==> 1 <= m.taken <= if beforeQuote || beforeLF then 2 else 1
  {
    if s.quoted then
      if unit == QUOTE && beforeQuote then Next(s.(field := s.field + [QUOTE]), 2)
      else if unit == QUOTE then Next(s.(quoted := false, closed := true), 1)
      else Next(s.(field := s.field + [unit]), 1)
    else if unit == COMMA then
      Next(s.(record := s.record + [s.field], field := [], closed := false), 1)
    else if unit == LF || unit == CR then
      Next(State(s.records + Kept(s.record + [s.field]), [], [], false, false), if unit == CR && beforeLF then 2 else 1)
    else if unit == QUOTE && s.field == [] && !s.closed then Next(s.(quoted := true), 1)
    else if s.closed || unit == QUOTE then Fault(InvalidQuoting)
    else Next(s.(field := s.field + [unit]), 1)
  }

  function Step(s: State, text: Text): (m: Move)
    requires text != []
    ensures m.Next? ==> 1 <= m.taken <= |text|
  {
    StepOn(s, text[0], |text| >= 2 && text[1] == QUOTE, |text| >= 2 && text[1] == LF)
  }

  function Finish(s: State): Result<seq<Record>, CsvError>
  {
    if s.quoted then Err(UnclosedField)
    else if s.field != [] || s.record != [] || s.closed then Ok(s.records + [s.record + [s.field]])
    else Ok(s.records)
  }

  function Run(s: State, text: Text): Result<seq<Record>, CsvError>
    decreases |text|
  {
    if text == [] then Finish(s)
    else
      match Step(s, text)
      case Fault(error) => Err(error)
      case Next(s', taken) => Run(s', text[taken..])
  }

  const START := State([], [], [], false, false)

  function WithoutMark(text: Text): Text
  {
    if text != [] && text[0] == BYTE_ORDER_MARK then text[1..] else text
  }

  /** The records of a text, before the header is looked at. */
  function Scan(text: Text): Result<seq<Record>, CsvError> { Run(START, WithoutMark(text)) }

  function MoveAt(s: State, source: Text, i: nat): Move
    requires i < |source|
  {
    var more := i + 1 < |source|;
    StepOn(s, source[i], more && source[i + 1] == QUOTE, more && source[i + 1] == LF)
  }

  lemma Unroll(s: State, source: Text, i: nat)
    requires i < |source|
    ensures var m := MoveAt(s, source, i);
            && (m.Next? ==> i + m.taken <= |source| && Run(s, source[i..]) == Run(m.state, source[i + m.taken..]))
            && (m.Fault? ==> Run(s, source[i..]) == Err(m.error))
  {
    hide StepOn;
    var m := Step(s, source[i..]);
    if m.Next? { assert source[i..][m.taken..] == source[i + m.taken..]; }
  }

  lemma KeptAdds(records: seq<Record>, record: Record)
    ensures records + Kept(record) == if SomeFilled(record) then records + [record] else records
  {
  }

  lemma RunsOut(s: State, text: Text)
    requires text == []
    ensures Run(s, text) == Finish(s)
  {
  }

  lemma ScanStarts(text: Text)
    ensures Run(State([], [], [], false, false), WithoutMark(text)[0..]) == Scan(text)
  {
    assert WithoutMark(text)[0..] == WithoutMark(text);
  }

  method ParseRecords(text: Text) returns (r: Result<seq<Record>, CsvError>)
    ensures r == Scan(text)
  {
    var records: seq<Record> := [];
    var record: Record := [];
    var field: Text := [];
    var quoted, closed := false, false;
    var source := WithoutMark(text);
    var i := 0;
    hide Run, Scan, WithoutMark, SomeFilled, Kept;
    ScanStarts(text);
    while i < |source|
      invariant 0 <= i <= |source|
      invariant Run(State(records, record, field, quoted, closed), source[i..]) == Scan(text)
    {
      var unit := source[i];
      ghost var start := i;
      ghost var was := State(records, record, field, quoted, closed);
      Unroll(was, source, i);
      if quoted {
        if unit == QUOTE && i + 1 < |source| && source[i + 1] == QUOTE {
          field := field + [QUOTE];
          i := i + 1;
        } else if unit == QUOTE {
          quoted, closed := false, true;
        } else {
          field := field + [unit];
        }
      } else if unit == COMMA || unit == LF || unit == CR {
        KeptAdds(records, record + [field]);
        record := record + [field];
        field, closed := [], false;
        if unit != COMMA {
          if unit == CR && i + 1 < |source| && source[i + 1] == LF { i := i + 1; }
          if SomeFilled(record) { records := records + [record]; }
          record := [];
        }
      } else if unit == QUOTE && field == [] && !closed {
        quoted := true;
      } else {
        if closed || unit == QUOTE { return Err(InvalidQuoting); }
        field := field + [unit];
      }
      i := i + 1;
      assert MoveAt(was, source, start) == Next(State(records, record, field, quoted, closed), i - start);
    }
    RunsOut(State(records, record, field, quoted, closed), source[i..]);
    if quoted { return Err(UnclosedField); }
    if field != [] || record != [] || closed {
      record := record + [field];
      records := records + [record];
    }
    return Ok(records);
  }

  // ---------- The grammar ----------

  datatype Field = Bare(value: Text) | Quoted(value: Text)

  datatype End = EndLF | EndCR | EndCRLF

  datatype Line = Line(fields: seq<Field>, end: End)

  /** Lines that end, and what follows the last of them; a tail of one empty bare field is nothing at all. */
  datatype Document = Document(lines: seq<Line>, tail: seq<Field>)

  const NO_TAIL: seq<Field> := [Bare([])]

  predicate Plain(t: Text) { forall i | 0 <= i < |t| :: t[i] !in {0x2C, 0x22, 0x0A, 0x0D} }

  predicate ValidFields(fs: seq<Field>) { fs != [] && forall i | 0 <= i < |fs| :: fs[i].Bare? ==> Plain(fs[i].value) }

  predicate ValidLines(lines: seq<Line>) { forall i | 0 <= i < |lines| :: ValidFields(lines[i].fields) }

  predicate ValidDocument(d: Document) { ValidLines(d.lines) && ValidFields(d.tail) }

  function Doubled(t: Text): Text
  {
    if t == [] then [] else (if t[0] == 0x22 then [0x22, 0x22] else [t[0]]) + Doubled(t[1..])
  }

  function FieldText(f: Field): Text
  {
    if f.Bare? then f.value else [0x22] + Doubled(f.value) + [0x22]
  }

  function FieldsText(fs: seq<Field>): Text
    requires fs != []
  {
    if |fs| == 1 then FieldText(fs[0]) else FieldText(fs[0]) + ([0x2C] + FieldsText(fs[1..]))
  }

  function EndText(e: End): Text { if e.EndLF? then [0x0A] else if e.EndCR? then [0x0D] else [0x0D, 0x0A] }

  function LineText(line: Line): Text
    requires ValidFields(line.fields)
  {
    FieldsText(line.fields) + EndText(line.end)
  }

  function LinesText(lines: seq<Line>): Text
    requires ValidLines(lines)
  {
    if lines == [] then [] else LineText(lines[0]) + LinesText(lines[1..])
  }

  function DocumentText(d: Document): Text
    requires ValidDocument(d)
  {
    LinesText(d.lines) + FieldsText(d.tail)
  }

  function Values(fs: seq<Field>): Record { seq(|fs|, i requires 0 <= i < |fs| => fs[i].value) }

  function LinesMeaning(lines: seq<Line>): seq<Record>
  {
    if lines == [] then [] else Kept(Values(lines[0].fields)) + LinesMeaning(lines[1..])
  }

  /** Lines of empty fields are dropped, but not an unfinished last line. */
  function Meaning(d: Document): seq<Record>
  {
    LinesMeaning(d.lines) + if d.tail == NO_TAIL then [] else [Values(d.tail)]
  }

  // ---------- Every document is read as what it means ----------

  predicate StopsField(rest: Text) { rest == [] || rest[0] in {COMMA, LF, CR} }

  predicate StopsLine(rest: Text) { rest == [] || rest[0] in {LF, CR} }

  lemma Regroup<T>(a: seq<T>, b: seq<T>, c: seq<T>)
    ensures (a + b) + c == a + (b + c)
  {
  }

  lemma {:induction false} BareRuns(s: State, t: Text, rest: Text)
    requires !s.quoted && !s.closed && Plain(t)
    ensures Run(s, t + rest) == Run(s.(field := s.field + t), rest)
    decreases |t|
  {
    if t == [] {
      assert t + rest == rest && s.field + t == s.field;
    } else {
      var s' := s.(field := s.field + [t[0]]);
      assert (t + rest)[1..] == t[1..] + rest;
      BareRuns(s', t[1..], rest);
      assert s.field + t == s'.field + t[1..];
    }
  }

  lemma {:induction false} QuotedRuns(s: State, t: Text, rest: Text)
    requires s.quoted && !s.closed && (rest == [] || rest[0] != QUOTE)
    ensures Run(s, Doubled(t) + [QUOTE] + rest) == Run(s.(field := s.field + t, quoted := false, closed := true), rest)
    decreases |t|
  {
    var text := Doubled(t) + [QUOTE] + rest;
    if t == [] {
      assert text == [QUOTE] + rest && text[1..] == rest && s.field + t == s.field;
    } else {
      var s' := s.(field := s.field + [t[0]]);
      QuotedUnit(s, t, rest);
      QuotedRuns(s', t[1..], rest);
      hide Step, Doubled;
      assert s.field + t == s'.field + t[1..];
    }
  }

  lemma QuotedUnit(s: State, t: Text, rest: Text)
    requires s.quoted && t != []
    ensures Run(s, Doubled(t) + [QUOTE] + rest)
         == Run(s.(field := s.field + [t[0]]), Doubled(t[1..]) + [QUOTE] + rest)
  {
    var more := Doubled(t[1..]) + [QUOTE] + rest;
    var unit := if t[0] == QUOTE then [QUOTE, QUOTE] else [t[0]];
    Regroup(unit, Doubled(t[1..]), [QUOTE]);
    Regroup(unit, Doubled(t[1..]) + [QUOTE], rest);
    hide Run, Doubled;
    UnitRuns(s, t[0], unit, more);
  }

  lemma UnitRuns(s: State, c: Unit, unit: Text, more: Text)
    requires s.quoted && unit == if c == QUOTE then [QUOTE, QUOTE] else [c]
    ensures Run(s, unit + more) == Run(s.(field := s.field + [c]), more)
  {
    var text := unit + more;
    assert text[|unit|..] == more && text[0] == c;
    assert Step(s, text) == Next(s.(field := s.field + [c]), |unit|);
  }

  lemma FieldRuns(s: State, f: Field, rest: Text)
    requires s.field == [] && !s.quoted && !s.closed && StopsField(rest) && (f.Bare? ==> Plain(f.value))
    ensures Run(s, FieldText(f) + rest) == Run(s.(field := f.value, closed := f.Quoted?), rest)
  {
    hide Run, Step, Doubled;
    assert [] + f.value == f.value;
    if f.Bare? {
      BareRuns(s, f.value, rest);
    } else {
      Regroup([QUOTE], Doubled(f.value), [QUOTE]);
      Regroup([QUOTE], Doubled(f.value) + [QUOTE], rest);
      QuoteRuns(s, Doubled(f.value) + [QUOTE] + rest);
      QuotedRuns(s.(quoted := true), f.value, rest);
    }
  }

  lemma QuoteRuns(s: State, rest: Text)
    requires s.field == [] && !s.quoted && !s.closed
    ensures Run(s, [QUOTE] + rest) == Run(s.(quoted := true), rest)
  {
    assert ([QUOTE] + rest)[0] == QUOTE && ([QUOTE] + rest)[1..] == rest;
  }

  lemma {:induction false} FieldsRun(s: State, fs: seq<Field>, rest: Text)
    requires s.field == [] && !s.quoted && !s.closed && ValidFields(fs) && StopsLine(rest)
    ensures var n := |fs| - 1;
            Run(s, FieldsText(fs) + rest)
            == Run(s.(record := s.record + Values(fs[..n]), field := fs[n].value, closed := fs[n].Quoted?), rest)
    decreases |fs|
  {
    hide Step, Run, FieldText;
    if |fs| == 1 {
      FieldRuns(s, fs[0], rest);
      assert s.record + Values(fs[..0]) == s.record;
    } else {
      var more := FieldsText(fs[1..]);
      Regroup(FieldText(fs[0]), [COMMA] + more, rest);
      Regroup([COMMA], more, rest);
      FieldRuns(s, fs[0], [COMMA] + (more + rest));
      CommaRuns(s.(field := fs[0].value, closed := fs[0].Quoted?), more + rest, [COMMA] + (more + rest));
      var s' := s.(record := s.record + [fs[0].value]);
      FieldsRun(s', fs[1..], rest);
      assert s.record + Values(fs[..|fs| - 1]) == s'.record + Values(fs[1..][..|fs| - 2]);
    }
  }

  lemma CommaRuns(s: State, rest: Text, text: Text)
    requires !s.quoted && text == [COMMA] + rest
    ensures Run(s, text) == Run(s.(record := s.record + [s.field], field := [], closed := false), rest)
  {
    assert text[1..] == rest;
  }

  predicate Fresh(s: State) { s.record == [] && s.field == [] && !s.quoted && !s.closed }

  /** A line with its end; a CR must not be taken for the first half of a CRLF. */
  lemma LineRuns(s: State, line: Line, rest: Text)
    requires Fresh(s) && ValidFields(line.fields)
    requires line.end.EndCR? ==> rest == [] || rest[0] != LF
    ensures Run(s, LineText(line) + rest) == Run(s.(records := s.records + Kept(Values(line.fields))), rest)
  {
    hide Step, Run, FieldsText;
    var fs := line.fields;
    var n := |fs| - 1;
    Regroup(FieldsText(fs), EndText(line.end), rest);
    FieldsRun(s, fs, EndText(line.end) + rest);
    assert s.record + Values(fs[..n]) + [fs[n].value] == Values(fs);
    EndRuns(s.(record := s.record + Values(fs[..n]), field := fs[n].value, closed := fs[n].Quoted?), line.end, rest);
  }

  lemma EndRuns(s: State, e: End, rest: Text)
    requires !s.quoted && (e.EndCR? ==> rest == [] || rest[0] != LF)
    ensures Run(s, EndText(e) + rest) == Run(State(s.records + Kept(s.record + [s.field]), [], [], false, false), rest)
  {
    var text := EndText(e) + rest;
    assert text[|EndText(e)|..] == rest;
  }

  /** A field never starts with a line end. */
  lemma FieldsStart(fs: seq<Field>)
    requires ValidFields(fs)
    ensures FieldsText(fs) != [] ==> FieldsText(fs)[0] !in {LF, CR}
    ensures FieldsText(fs) == [] <==> fs == NO_TAIL
  {
  }

  lemma {:induction false} LinesRun(s: State, lines: seq<Line>, tail: seq<Field>)
    requires Fresh(s) && ValidLines(lines) && ValidFields(tail)
    ensures Run(s, LinesText(lines) + FieldsText(tail))
            == Run(s.(records := s.records + LinesMeaning(lines)), FieldsText(tail))
    decreases |lines|
  {
    hide Run, Step, FieldsText, LineText, Kept;
    if lines == [] {
      assert LinesText(lines) + FieldsText(tail) == FieldsText(tail);
      assert s.records + LinesMeaning(lines) == s.records;
    } else {
      var rest := LinesText(lines[1..]) + FieldsText(tail);
      Regroup(LineText(lines[0]), LinesText(lines[1..]), FieldsText(tail));
      if lines[0].end.EndCR? && rest != [] && rest[0] == LF {
        SplitLineEnd(lines, tail);
        var joined := Line(lines[0].fields, EndCRLF);
        OneLine(s, joined, lines[2..], tail);
        LinesRun(s.(records := s.records + Kept(Values(joined.fields))), lines[2..], tail);
        Regroup(s.records, Kept(Values(joined.fields)), LinesMeaning(lines[2..]));
      } else {
        LineRuns(s, lines[0], rest);
        LinesRun(s.(records := s.records + Kept(Values(lines[0].fields))), lines[1..], tail);
        Regroup(s.records, Kept(Values(lines[0].fields)), LinesMeaning(lines[1..]));
      }
    }
  }

  lemma OneLine(s: State, line: Line, lines: seq<Line>, tail: seq<Field>)
    requires Fresh(s) && ValidFields(line.fields) && !line.end.EndCR? && ValidLines(lines) && ValidFields(tail)
    ensures Run(s, LineText(line) + (LinesText(lines) + FieldsText(tail)))
            == Run(s.(records := s.records + Kept(Values(line.fields))), LinesText(lines) + FieldsText(tail))
  {
    LineRuns(s, line, LinesText(lines) + FieldsText(tail));
  }

  /** A CR before an empty LF line reads as one CRLF; the empty line would have been dropped anyway. */
  lemma SplitLineEnd(lines: seq<Line>, tail: seq<Field>)
    requires ValidLines(lines) && ValidFields(tail) && lines != [] && lines[0].end.EndCR?
    requires var rest := LinesText(lines[1..]) + FieldsText(tail); rest != [] && rest[0] == LF
    ensures |lines| >= 2
    ensures LinesText(lines) + FieldsText(tail)
            == LineText(Line(lines[0].fields, EndCRLF)) + (LinesText(lines[2..]) + FieldsText(tail))
    ensures LinesMeaning(lines) == Kept(Values(lines[0].fields)) + LinesMeaning(lines[2..])
  {
    LineStart(lines[1..], tail);
    hide LinesText, LinesMeaning;
    EmptyLineText(lines);
    EmptyLineMeaning(lines);
    JoinEnd(FieldsText(lines[0].fields), LinesText(lines[2..]), FieldsText(tail));
  }

  lemma EmptyLine(line: Line)
    requires line.fields == NO_TAIL && line.end == EndLF
    ensures ValidFields(line.fields) && LineText(line) == [LF] && Kept(Values(line.fields)) == []
  {
    assert !SomeFilled(Values(NO_TAIL));
    assert FieldsText(NO_TAIL) == [];
  }

  lemma EmptyLineText(lines: seq<Line>)
    requires ValidLines(lines) && |lines| >= 2 && lines[0].end.EndCR?
    requires lines[1].fields == NO_TAIL && lines[1].end == EndLF
    ensures LinesText(lines) == (FieldsText(lines[0].fields) + [CR]) + ([LF] + LinesText(lines[2..]))
  {
    EmptyLine(lines[1]);
    hide FieldsText;
    var more := lines[1..];
    assert more[1..] == lines[2..];
    assert LinesText(more) == [LF] + LinesText(lines[2..]);
  }

  lemma EmptyLineMeaning(lines: seq<Line>)
    requires |lines| >= 2 && lines[1].fields == NO_TAIL && lines[1].end == EndLF
    ensures LinesMeaning(lines) == Kept(Values(lines[0].fields)) + LinesMeaning(lines[2..])
  {
    EmptyLine(lines[1]);
    hide Kept;
    var more := lines[1..];
    assert more[1..] == lines[2..];
    assert LinesMeaning(more) == [] + LinesMeaning(lines[2..]);
  }

  lemma JoinEnd(f: Text, rest: Text, last: Text)
    ensures (f + [CR]) + ([LF] + rest) + last == (f + [CR, LF]) + (rest + last)
  {
  }

  /** Only an empty line that ends in LF starts with LF. */
  lemma LineStart(lines: seq<Line>, tail: seq<Field>)
    requires ValidLines(lines) && ValidFields(tail)
    requires var rest := LinesText(lines) + FieldsText(tail); rest != [] && rest[0] == LF
    ensures lines != [] && lines[0].fields == NO_TAIL && lines[0].end == EndLF
  {
    FieldsStart(tail);
    if lines != [] { FieldsStart(lines[0].fields); }
    hide FieldsText;
    if lines != [] {
      assert LinesText(lines) != [] && LinesText(lines)[0] == LineText(lines[0])[0];
    }
  }

  lemma TailRuns(s: State, tail: seq<Field>)
    requires Fresh(s) && ValidFields(tail)
    ensures Run(s, FieldsText(tail)) == Ok(s.records + if tail == NO_TAIL then [] else [Values(tail)])
  {
    hide Run, Step, FieldsText;
    var n := |tail| - 1;
    FieldsRun(s, tail, []);
    assert FieldsText(tail) + [] == FieldsText(tail);
    var s' := s.(record := s.record + Values(tail[..n]), field := tail[n].value, closed := tail[n].Quoted?);
    RunsOut(s', []);
    LastField(s', tail);
  }

  lemma LastField(s: State, tail: seq<Field>)
    requires tail != [] && !s.quoted && s.record == Values(tail[..|tail| - 1])
    requires s.field == tail[|tail| - 1].value && s.closed == tail[|tail| - 1].Quoted?
    ensures Finish(s) == Ok(s.records + if tail == NO_TAIL then [] else [Values(tail)])
  {
    assert s.record + [s.field] == Values(tail);
    assert |tail| == 1 ==> tail == [tail[0]];
    assert s.records + [] == s.records;
  }

  /** Whatever document a text is printed from, the scanner reads what the document means. */
  lemma DocumentRead(d: Document)
    requires ValidDocument(d)
    ensures Run(START, DocumentText(d)) == Ok(Meaning(d))
  {
    LinesRun(START, d.lines, d.tail);
    TailRuns(START.(records := START.records + LinesMeaning(d.lines)), d.tail);
    assert START.records + LinesMeaning(d.lines) == LinesMeaning(d.lines);
  }

  // ---------- Every accepted text is printed from some document ----------

  /** Finished fields, each with its comma. */
  function OpenText(fs: seq<Field>): Text
  {
    if fs == [] then [] else OpenText(fs[..|fs| - 1]) + (FieldText(fs[|fs| - 1]) + [COMMA])
  }

  /** The field being read. */
  function Current(s: State): Field { if s.closed || s.quoted then Quoted(s.field) else Bare(s.field) }

  function CurrentText(s: State): Text
  {
    if s.quoted then [QUOTE] + Doubled(s.field) else FieldText(Current(s))
  }

  lemma {:induction false} DoubledNext(t: Text, c: Unit)
    ensures Doubled(t + [c]) == Doubled(t) + if c == QUOTE then [QUOTE, QUOTE] else [c]
  {
    if t != [] {
      DoubledNext(t[1..], c);
      assert (t + [c])[1..] == t[1..] + [c];
    } else {
      assert [c][1..] == [];
    }
  }

  lemma OpenNext(fs: seq<Field>, f: Field)
    ensures OpenText(fs + [f]) == OpenText(fs) + (FieldText(f) + [COMMA])
  {
    assert (fs + [f])[..|fs|] == fs;
  }

  lemma {:induction false} OpenFront(f: Field, fs: seq<Field>)
    ensures OpenText([f] + fs) == FieldText(f) + ([COMMA] + OpenText(fs))
  {
    hide FieldText;
    if fs == [] {
      assert ([f] + fs)[..0] == [];
      assert OpenText([]) == [];
    } else {
      var n := |fs| - 1;
      OpenFront(f, fs[..n]);
      assert ([f] + fs)[..n + 1] == [f] + fs[..n];
      var last := FieldText(fs[n]) + [COMMA];
      Regroup(FieldText(f), [COMMA] + OpenText(fs[..n]), last);
      Regroup([COMMA], OpenText(fs[..n]), last);
    }
  }

  lemma {:induction false} FieldsNext(fs: seq<Field>, f: Field)
    ensures FieldsText(fs + [f]) == OpenText(fs) + FieldText(f)
  {
    hide FieldText;
    if fs == [] {
      assert fs + [f] == [f];
    } else {
      FieldsNext(fs[1..], f);
      OpenFront(fs[0], fs[1..]);
      assert (fs + [f])[1..] == fs[1..] + [f] && [fs[0]] + fs[1..] == fs;
      Regroup(FieldText(fs[0]), [COMMA] + OpenText(fs[1..]), FieldText(f));
      Regroup([COMMA], OpenText(fs[1..]), FieldText(f));
    }
  }

  lemma {:induction false} LinesNext(lines: seq<Line>, line: Line)
    requires ValidLines(lines) && ValidFields(line.fields)
    ensures ValidLines(lines + [line])
    ensures LinesText(lines + [line]) == LinesText(lines) + LineText(line)
    ensures LinesMeaning(lines + [line]) == LinesMeaning(lines) + Kept(Values(line.fields))
  {
    hide LineText, Kept, ValidFields;
    if lines == [] {
      assert lines + [line] == [line] && [line][1..] == [];
      assert LinesText([]) == [] && LinesMeaning([]) == [];
    } else {
      LinesNext(lines[1..], line);
      assert (lines + [line])[1..] == lines[1..] + [line];
      Regroup(LineText(lines[0]), LinesText(lines[1..]), LineText(line));
      Regroup(Kept(Values(lines[0].fields)), LinesMeaning(lines[1..]), Kept(Values(line.fields)));
    }
  }

  /** A line whose fields are all empty gives no record, and any other line gives one, whatever else is there. */
  lemma LineMeans(before: seq<Line>, line: Line)
    requires ValidLines(before) && ValidFields(line.fields)
    ensures LinesMeaning(before + [line]) == LinesMeaning(before)
            + if forall i | 0 <= i < |line.fields| :: line.fields[i].value == [] then [] else [Values(line.fields)]
  {
    LinesNext(before, line);
    hide LinesMeaning;
    var r := Values(line.fields);
    if i :| 0 <= i < |line.fields| && line.fields[i].value != [] { assert r[i] != []; }
    assert LinesMeaning(before) + [] == LinesMeaning(before);
  }

  /** What has been read so far, as finished lines, finished fields of the current line, and the current field. */
  ghost predicate Explains(s: State, read: Text, lines: seq<Line>, done: seq<Field>)
  {
    && ValidLines(lines) && (done != [] ==> ValidFields(done)) && ValidFields([Current(s)]) && !(s.quoted && s.closed)
    && s.records == LinesMeaning(lines) && s.record == Values(done)
    && read == LinesText(lines) + (OpenText(done) + CurrentText(s))
  }

  lemma JoinValid(done: seq<Field>, f: Field)
    requires (done != [] ==> ValidFields(done)) && ValidFields([f])
    ensures ValidFields(done + [f])
  {
    assert [f][0] == f;
  }

  lemma {:induction false} Rebuild(s: State, read: Text, text: Text, lines: seq<Line>, done: seq<Field>)
      returns (d: Document)
    requires Explains(s, read, lines, done) && Run(s, text).Ok?
    ensures ValidDocument(d) && DocumentText(d) == read + text
    decreases |text|
  {
    hide Step, OpenText, LinesText, FieldsText, Values, LinesMeaning;
    if text == [] {
      JoinValid(done, Current(s));
      d := Document(lines, done + [Current(s)]);
      FieldsNext(done, Current(s));
      assert read + text == read;
    } else {
      var m := Step(s, text);
      var lines', done' := Explained(s, read, text, lines, done);
      hide Explains;
      d := Rebuild(m.state, read + text[..m.taken], text[m.taken..], lines', done');
      Regroup(read, text[..m.taken], text[m.taken..]);
      assert text[..m.taken] + text[m.taken..] == text;
    }
  }

  /** One step keeps what has been read explained. */
  lemma Explained(s: State, read: Text, text: Text, lines: seq<Line>, done: seq<Field>)
      returns (lines': seq<Line>, done': seq<Field>)
    requires Explains(s, read, lines, done) && text != [] && Step(s, text).Next?
    ensures var m := Step(s, text); Explains(m.state, read + text[..m.taken], lines', done')
  {
    var m := Step(s, text);
    lines', done' := lines, done;
    if s.quoted || text[0] !in {COMMA, LF, CR} {
      hide Explains;
      FieldExplained(s, read, text, lines, done);
    } else if text[0] == COMMA {
      done' := done + [Current(s)];
      hide Explains;
      CommaExplained(s, read, text, lines, done);
    } else {
      var end := if text[0] == LF then EndLF else if m.taken == 2 then EndCRLF else EndCR;
      JoinValid(done, Current(s));
      lines', done' := lines + [Line(done + [Current(s)], end)], [];
      hide Explains;
      LineExplained(s, read, text, lines, done, end);
    }
  }

  /** Within a field, its text grows by exactly what is read. */
  lemma FieldGrows(s: State, text: Text)
    requires text != [] && Step(s, text).Next? && !(s.quoted && s.closed) && ValidFields([Current(s)])
    requires s.quoted || text[0] !in {COMMA, LF, CR}
    ensures var m := Step(s, text);
            && CurrentText(m.state) == CurrentText(s) + text[..m.taken]
            && m.state.records == s.records && m.state.record == s.record && !(m.state.quoted && m.state.closed)
            && ValidFields([Current(m.state)])
  {
    DoubledNext(s.field, text[0]);
    var m := Step(s, text);
    hide Doubled;
    assert [Current(s)][0] == Current(s);
    if s.quoted {
      var read := if text[0] == QUOTE && m.taken == 2 then [QUOTE, QUOTE] else [text[0]];
      assert text[..m.taken] == read;
      Regroup([QUOTE], Doubled(s.field), read);
    } else {
      assert text[..m.taken] == [text[0]];
    }
  }

  lemma FieldExplained(s: State, read: Text, text: Text, lines: seq<Line>, done: seq<Field>)
    requires Explains(s, read, lines, done) && text != [] && Step(s, text).Next?
    requires s.quoted || text[0] !in {COMMA, LF, CR}
    ensures var m := Step(s, text); Explains(m.state, read + text[..m.taken], lines, done)
  {
    FieldGrows(s, text);
    hide Step, OpenText, LinesText, CurrentText, Values, LinesMeaning;
    var taken := text[..Step(s, text).taken];
    Regroup(LinesText(lines), OpenText(done) + CurrentText(s), taken);
    Regroup(OpenText(done), CurrentText(s), taken);
  }

  lemma CommaExplained(s: State, read: Text, text: Text, lines: seq<Line>, done: seq<Field>)
    requires Explains(s, read, lines, done) && text != [] && !s.quoted && text[0] == COMMA
    ensures var m := Step(s, text); Explains(m.state, read + text[..m.taken], lines, done + [Current(s)])
  {
    var m := Step(s, text);
    assert text[..m.taken] == [COMMA] && CurrentText(m.state) == [];
    assert Values(done + [Current(s)]) == Values(done) + [s.field];
    OpenNext(done, Current(s));
    JoinValid(done, Current(s));
    assert ValidFields([Current(m.state)]);
    hide Step, OpenText, LinesText, Values, LinesMeaning, FieldText;
    var open, now := OpenText(done), CurrentText(s);
    Regroup(LinesText(lines), open + now, [COMMA]);
    Regroup(open, now, [COMMA]);
    assert OpenText(done + [Current(s)]) + [] == OpenText(done + [Current(s)]);
  }

  lemma LineExplained(s: State, read: Text, text: Text, lines: seq<Line>, done: seq<Field>, end: End)
    requires Explains(s, read, lines, done) && text != [] && !s.quoted && text[0] in {LF, CR}
    requires EndText(end) == text[..Step(s, text).taken]
    ensures var m := Step(s, text);
            Explains(m.state, read + text[..m.taken], lines + [Line(done + [Current(s)], end)], [])
  {
    var m := Step(s, text);
    LineStarts(s, text);
    Finished(s, done);
    hide Step, LinesText, OpenText, FieldsText, LinesMeaning, FieldText, EndText, Values, Current, CurrentText;
    var fs := done + [Current(s)];
    FieldsNext(done, Current(s));
    JoinValid(done, Current(s));
    LinesNext(lines, Line(fs, end));
    hide ValidFields, ValidLines, Kept;
    Regroup(LinesText(lines), OpenText(done) + CurrentText(s), EndText(end));
    Regroup(OpenText(done), CurrentText(s), EndText(end));
    Regroup(LinesText(lines), FieldsText(fs), EndText(end));
    assert LinesText(lines + [Line(fs, end)]) + ([] + []) == LinesText(lines + [Line(fs, end)]);
  }

  /** At the end of a line the scanner starts afresh, with the line added to its records. */
  lemma LineStarts(s: State, text: Text)
    requires text != [] && !s.quoted && text[0] in {LF, CR}
    ensures var m := Step(s, text);
            && m.Next? && m.state == State(s.records + Kept(s.record + [s.field]), [], [], false, false)
            && CurrentText(m.state) == [] && OpenText([]) == [] && Values([]) == []
            && ValidFields([Current(m.state)])
  {
    hide Kept;
    assert [Current(Step(s, text).state)][0].value == [];
  }

  lemma Finished(s: State, done: seq<Field>)
    ensures Values(done + [Current(s)]) == Values(done) + [s.field]
    ensures !s.quoted ==> CurrentText(s) == FieldText(Current(s))
  {
    hide FieldText;
  }

  /**
   The scanner accepts a text exactly when, past a leading byte order mark, some document of bare and quoted
   fields prints to it; and then it reads what that document means, whichever document it is.
   */
  lemma AcceptsIff(text: Text)
    ensures Scan(text).Ok? <==> exists d :: ValidDocument(d) && DocumentText(d) == WithoutMark(text)
    ensures forall d | ValidDocument(d) && DocumentText(d) == WithoutMark(text) :: Scan(text) == Ok(Meaning(d))
  {
    hide Meaning, DocumentText, ValidDocument, Run, WithoutMark, Explains;
    forall d | ValidDocument(d) && DocumentText(d) == WithoutMark(text) ensures Scan(text) == Ok(Meaning(d)) {
      DocumentRead(d);
    }
    if Scan(text).Ok? {
      NothingRead();
      var d := Rebuild(START, [], WithoutMark(text), [], []);
      assert [] + WithoutMark(text) == WithoutMark(text);
      assert ValidDocument(d) && DocumentText(d) == WithoutMark(text);
    }
  }

  lemma NothingRead()
    ensures Explains(START, [], [], [])
  {
    assert OpenText([]) == [] && LinesMeaning([]) == [] && Values([]) == [];
  }

  // ---------- Which error ----------

  lemma StepAppended(s: State, text: Text)
    requires text != [] && !(s.quoted && text == [QUOTE])
    ensures Step(s, text + [QUOTE]) == Step(s, text)
  {
    var more := text + [QUOTE];
    assert more[0] == text[0] && (|text| >= 2 ==> more[1] == text[1]) && (|text| == 1 ==> more[1] == QUOTE);
    hide Kept;
    assert |text| == 1 ==> text == [text[0]];
  }

  lemma {:induction false} RunAppended(s: State, text: Text)
    ensures Run(s, text) == Err(UnclosedField) ==> Run(s, text + [QUOTE]).Ok?
    ensures Run(s, text) == Err(InvalidQuoting) ==> Run(s, text + [QUOTE]) == Err(InvalidQuoting)
    decreases |text|
  {
    if text == [] {
      assert text + [QUOTE] == [QUOTE] && [QUOTE][1..] == [];
    } else if s.quoted && text == [QUOTE] {
      var closed := s.(quoted := false, closed := true);
      assert Step(s, text) == Next(closed, 1) && text[1..] == [];
      RunsOut(closed, text[1..]);
    } else {
      StepAppended(s, text);
      hide Step;
      var m := Step(s, text);
      if m.Next? {
        assert (text + [QUOTE])[m.taken..] == text[m.taken..] + [QUOTE];
        RunAppended(m.state, text[m.taken..]);
      }
    }
  }

  /** The two errors are told apart: a field was left open exactly when one more quote would make the text readable. */
  lemma UnclosedIff(text: Text)
    ensures Scan(text) == Err(UnclosedField) <==> Scan(text).Err? && Scan(text + [QUOTE]).Ok?
  {
    RunAppended(START, WithoutMark(text));
    if text != [] { assert (text + [QUOTE])[0] == text[0] && (text + [QUOTE])[1..] == text[1..] + [QUOTE]; }
    assert WithoutMark(text + [QUOTE]) == WithoutMark(text) + [QUOTE];
    hide Run, WithoutMark;
    var e := Run(START, WithoutMark(text));
    assert e.Err? ==> e.error == UnclosedField || e.error == InvalidQuoting;
    assert Scan(text) == e && Scan(text + [QUOTE]) == Run(START, WithoutMark(text) + [QUOTE]);
  }

  // ---------- Round trips ----------

  lemma {:induction false} AllKept(lines: seq<Line>)
    requires forall i | 0 <= i < |lines| :: SomeFilled(Values(lines[i].fields))
    ensures |LinesMeaning(lines)| == |lines|
    ensures forall i | 0 <= i < |lines| :: LinesMeaning(lines)[i] == Values(lines[i].fields)
  {
    if lines != [] { AllKept(lines[1..]); }
  }

  /** The records of lines, none dropped. */
  function AllValues(lines: seq<Line>): (rs: seq<Record>)
    ensures |rs| == |lines|
  {
    seq(|lines|, i requires 0 <= i < |lines| => Values(lines[i].fields))
  }

  predicate Filled(lines: seq<Line>) { forall i | 0 <= i < |lines| :: SomeFilled(Values(lines[i].fields)) }

  /**
   Records that each have a filled field come back from any of their printed forms, with any line ends and any
   quoting, exactly when the print does not begin with U+FEFF.
   */
  lemma RoundTripIff(lines: seq<Line>)
    requires ValidLines(lines) && Filled(lines)
    ensures Scan(LinesText(lines)) == Ok(AllValues(lines))
       <==> (LinesText(lines) == [] || LinesText(lines)[0] != 0xFEFF)
  {
    var text := LinesText(lines);
    AllKept(lines);
    assert LinesMeaning(lines) == AllValues(lines);
    hide LinesText;
    if text == [] || text[0] != BYTE_ORDER_MARK {
      DocumentRead(Document(lines, NO_TAIL));
      assert text + FieldsText(NO_TAIL) == text && AllValues(lines) + [] == AllValues(lines);
    } else {
      MarkLost(lines);
    }
  }

  /** A first field that begins with U+FEFF, unquoted, loses it. */
  lemma MarkLost(lines: seq<Line>)
    requires ValidLines(lines) && Filled(lines)
    requires LinesText(lines) != [] && LinesText(lines)[0] == BYTE_ORDER_MARK
    ensures Scan(LinesText(lines)) != Ok(AllValues(lines))
  {
    MarkFirst(lines);
    var fs := lines[0].fields;
    var cut := Line([Bare(fs[0].value[1..])] + fs[1..], lines[0].end);
    CutText(fs);
    var rest := [cut] + lines[1..];
    assert rest[1..] == lines[1..] && ValidLines(rest);
    CutLines(lines, cut);
    hide LinesText, FieldsText;
    DocumentRead(Document(rest, NO_TAIL));
    EmptyLine(Line(NO_TAIL, EndLF));
    assert FieldsText(NO_TAIL) == [] by { FieldsStart(NO_TAIL); }
    assert LinesText(rest) + [] == LinesText(rest);
    CutDiffers(lines, cut);
  }

  lemma CutLines(lines: seq<Line>, cut: Line)
    requires ValidLines(lines) && lines != [] && ValidFields(cut.fields) && cut.end == lines[0].end
    requires FieldsText(lines[0].fields) != [] && FieldsText(cut.fields) == FieldsText(lines[0].fields)[1..]
    ensures ValidLines([cut] + lines[1..]) && LinesText([cut] + lines[1..]) == LinesText(lines)[1..]
  {
    hide FieldsText;
    assert ([cut] + lines[1..])[1..] == lines[1..];
    TailOfJoin(FieldsText(lines[0].fields), EndText(cut.end));
    TailOfJoin(LineText(lines[0]), LinesText(lines[1..]));
  }

  lemma CutDiffers(lines: seq<Line>, cut: Line)
    requires lines != [] && Filled(lines) && lines[0].fields != [] && cut.fields != []
    requires cut.fields[0].value != lines[0].fields[0].value
    ensures LinesMeaning([cut] + lines[1..]) + [] != AllValues(lines)
  {
    var rest := [cut] + lines[1..];
    assert rest[1..] == lines[1..];
    AllKept(lines[1..]);
    var read := LinesMeaning(rest) + [];
    assert read == LinesMeaning(rest) == Kept(Values(cut.fields)) + LinesMeaning(lines[1..]);
    assert Values(cut.fields)[0] != Values(lines[0].fields)[0];
    if |read| == |lines| { assert read[0] == Values(cut.fields) && AllValues(lines)[0] == Values(lines[0].fields); }
  }

  lemma CutText(fs: seq<Field>)
    requires ValidFields(fs) && fs[0].Bare? && fs[0].value != []
    ensures var cut := [Bare(fs[0].value[1..])] + fs[1..];
            ValidFields(cut) && FieldsText(cut) == FieldsText(fs)[1..]
  {
    var cut := [Bare(fs[0].value[1..])] + fs[1..];
    assert cut[1..] == fs[1..] && cut[0] == Bare(fs[0].value[1..]);
    assert forall i | 1 <= i < |cut| :: cut[i] == fs[i];
    if |fs| > 1 {
      hide FieldsText;
      FieldsTextFront(fs);
      FieldsTextFront(cut);
      TailOfJoin(fs[0].value, [COMMA] + FieldsText(fs[1..]));
    }
  }

  lemma FieldsTextFront(fs: seq<Field>)
    requires |fs| > 1
    ensures FieldsText(fs) == FieldText(fs[0]) + ([COMMA] + FieldsText(fs[1..]))
  {
  }

  lemma TailOfJoin(a: Text, b: Text)
    requires a != []
    ensures (a + b)[1..] == a[1..] + b
  {
  }

  lemma MarkFirst(lines: seq<Line>)
    requires ValidLines(lines) && LinesText(lines) != [] && LinesText(lines)[0] == BYTE_ORDER_MARK
    ensures var f := lines[0].fields[0]; f.Bare? && f.value != [] && f.value[0] == BYTE_ORDER_MARK
  {
  }

  /** How RFC 4180 prints a field: quoted when it must be. */
  function Printed(t: Text): Field { if Plain(t) then Bare(t) else Quoted(t) }

  function PrintedRecord(r: Record): seq<Field> { seq(|r|, i requires 0 <= i < |r| => Printed(r[i])) }

  function PrintedLines(rs: seq<Record>, end: End): seq<Line>
  {
    seq(|rs|, i requires 0 <= i < |rs| => Line(PrintedRecord(rs[i]), end))
  }

  lemma PrintedValid(rs: seq<Record>, end: End)
    requires forall i | 0 <= i < |rs| :: rs[i] != []
    ensures ValidLines(PrintedLines(rs, end))
  {
  }

  /** The print of these records begins with U+FEFF. */
  predicate LeadingMark(rs: seq<Record>)
  {
    && rs != [] && rs[0] != [] && Plain(rs[0][0])
    && rs[0][0] != [] && rs[0][0][0] == 0xFEFF
  }

  /** Printing records as RFC 4180 does and scanning the text gives them back, unless a byte order mark leads. */
  lemma PrintedRoundTripIff(rs: seq<Record>, end: End)
    requires forall i | 0 <= i < |rs| :: SomeFilled(rs[i])
    ensures ValidLines(PrintedLines(rs, end))
    ensures Scan(LinesText(PrintedLines(rs, end))) == Ok(rs) <==> !LeadingMark(rs)
  {
    var lines := PrintedLines(rs, end);
    PrintedValid(rs, end);
    forall i | 0 <= i < |rs| ensures Values(lines[i].fields) == rs[i] { }
    if LinesText(lines) != [] && LinesText(lines)[0] == BYTE_ORDER_MARK { MarkFirst(lines); }
    if LeadingMark(rs) { MarkLeads(lines); }
    RoundTripIff(lines);
    assert AllValues(lines) == rs;
  }

  lemma MarkLeads(lines: seq<Line>)
    requires ValidLines(lines) && lines != []
    requires var f := lines[0].fields[0]; f.Bare? && f.value != [] && f.value[0] == BYTE_ORDER_MARK
    ensures LinesText(lines) != [] && LinesText(lines)[0] == BYTE_ORDER_MARK
  {
  }
}
