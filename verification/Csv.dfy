/** The CSV reader of the airport tables, against the writing rules of section 2 of RFC 4180. */
module Csv {

  // ---- Writing (RFC 4180) ----

  predicate NeedsQuotes(field: string) {
    ',' in field || '"' in field
  }

  /** Quotes inside a quoted field are doubled. */
  function Doubled(field: string): string {
    if field == "" then "" else (if field[0] == '"' then "\"\"" else [field[0]]) + Doubled(field[1..])
  }

  function PrintField(field: string, quoted: bool): string {
    if quoted then "\"" + Doubled(field) + "\"" else field
  }

  /** A line: the fields separated by commas, each quoted or not as `quoted` says. */
  function PrintLine(fields: seq<string>, quoted: seq<bool>): string
    requires |fields| == |quoted| && fields != []
  {
    if |fields| == 1 then PrintField(fields[0], quoted[0])
    else PrintField(fields[0], quoted[0]) + "," + PrintLine(fields[1..], quoted[1..])
  }

  // ---- Reading ----

  /** The loop variables of the parser. */
  datatype Scan = Scan(fields: seq<string>, field: string, inQuotes: bool)

  /** What the loop does with the characters of `line` from state s on. */
  function Parse(s: Scan, line: string): Scan
    decreases |line|
  {
    if line == "" then s
    else
      var c := line[0];
      if s.inQuotes then
        if c == '"' then
          if |line| > 1 && line[1] == '"' then Parse(s.(field := s.field + "\""), line[2..])
          else Parse(s.(inQuotes := false), line[1..])
        else Parse(s.(field := s.field + [c]), line[1..])
      else if c == '"' then Parse(s.(inQuotes := true), line[1..])
      else if c == ',' then Parse(Scan(s.fields + [s.field], "", false), line[1..])
      else Parse(s.(field := s.field + [c]), line[1..])
  }

  function Finish(s: Scan): seq<string> {
    s.fields + [s.field]
  }

  method ParseCsvLine(line: string) returns (fields: seq<string>)
    ensures fields == Finish(Parse(Scan([], "", false), line))
  {
    fields := [];
    var field, inQuotes, i := "", false, 0;
    while i < |line|
      invariant i <= |line|
      invariant Parse(Scan(fields, field, inQuotes), line[i..]) == Parse(Scan([], "", false), line)
    {
      var c := line[i];
      assert line[i..][1..] == line[i + 1..];
      if inQuotes {
        if c == '"' {
          if i + 1 < |line| && line[i + 1] == '"' {
            assert line[i..][2..] == line[i + 2..];
            field := field + "\"";
            i := i + 1;
          } else {
            inQuotes := false;
          }
        } else {
          field := field + [c];
        }
      } else if c == '"' {
        inQuotes := true;
      } else if c == ',' {
        fields := fields + [field];
        field := "";
      } else {
        field := field + [c];
      }
      i := i + 1;
    }
    fields := fields + [field];
  }

  // ---- Any line ----

  /** The commas with an even number of quotes before them, or an odd one. */
  function Commas(line: string, odd: bool): nat
    decreases |line|
  {
    if line == "" then 0
    else (if line[0] == ',' && !odd then 1 else 0) + Commas(line[1..], odd != (line[0] == '"'))
  }

  lemma {:induction false} CommasCount(s: Scan, line: string)
    ensures |Parse(s, line).fields| == |s.fields| + Commas(line, s.inQuotes)
    ensures s.fields <= Parse(s, line).fields
    decreases |line|
  {
    if line != "" {
      var c := line[0];
      if s.inQuotes && c == '"' && |line| > 1 && line[1] == '"' {
        assert line[1..][1..] == line[2..];
        assert Commas(line, true) == Commas(line[1..], false) == Commas(line[2..], true);
        CommasCount(s.(field := s.field + "\""), line[2..]);
      } else if c == '"' {
        CommasCount(s.(inQuotes := !s.inQuotes), line[1..]);
      } else if c == ',' && !s.inQuotes {
        CommasCount(Scan(s.fields + [s.field], "", false), line[1..]);
      } else {
        CommasCount(s.(field := s.field + [c]), line[1..]);
      }
    }
  }

  /** Every line, also one with an open quote, has one field more than commas outside quotes. */
  lemma FieldCount(line: string)
    ensures |Finish(Parse(Scan([], "", false), line))| == 1 + Commas(line, false)
  {
    CommasCount(Scan([], "", false), line);
  }

  /** Without a quote the fields are what is between the commas. */
  lemma {:induction false} NoQuotesJoin(s: Scan, line: string)
    requires '"' !in line && !s.inQuotes
    ensures Joined(Finish(Parse(s, line))) == Joined(Finish(s)) + line
    decreases |line|
  {
    if line == "" {
      assert Joined(Finish(s)) + line == Joined(Finish(s));
    } else {
      var c := line[0];
      var next := if c == ',' then Scan(s.fields + [s.field], "", false) else s.(field := s.field + [c]);
      assert c in line && forall x :: x in line[1..] ==> x in line;
      NoQuotesJoin(next, line[1..]);
      JoinedNext(s, c);
      assert Joined(Finish(s)) + [c] + line[1..] == Joined(Finish(s)) + line;
    }
  }

  /** The fields with a comma between each two. */
  function Joined(fields: seq<string>): string
    requires fields != []
  {
    if |fields| == 1 then fields[0] else Joined(fields[..|fields| - 1]) + "," + fields[|fields| - 1]
  }

  lemma JoinedNext(s: Scan, c: char)
    ensures var next := if c == ',' then Scan(s.fields + [s.field], "", false) else s.(field := s.field + [c]);
            Joined(Finish(next)) == Joined(Finish(s)) + [c]
  {
    var fs := Finish(s);
    if c == ',' {
      assert (fs + [""])[..|fs|] == fs;
    } else {
      assert (s.fields + [s.field + [c]])[..|s.fields|] == s.fields && fs[..|s.fields|] == s.fields;
    }
  }

  // ---- Reading back what was written ----

  /** Inside quotes the doubled field is read back; its closing quote is not followed by another one. */
  lemma {:induction false} ReadQuoted(s: Scan, field: string, rest: string)
    requires s.inQuotes && (rest == "" || rest[0] != '"')
    ensures Parse(s, Doubled(field) + "\"" + rest) == Parse(Scan(s.fields, s.field + field, false), rest)
    decreases |field|
  {
    var line := Doubled(field) + "\"" + rest;
    if field == "" {
      assert line == "\"" + rest && line[1..] == rest && s.field + field == s.field;
    } else {
      var tail := Doubled(field[1..]) + "\"" + rest;
      assert s.field + field == s.field + [field[0]] + field[1..];
      if field[0] == '"' {
        assert line == "\"\"" + tail && line[2..] == tail;
      } else {
        assert line == [field[0]] + tail && line[1..] == tail;
      }
      ReadQuoted(s.(field := s.field + [field[0]]), field[1..], rest);
    }
  }

  lemma {:induction false} ReadPlain(s: Scan, field: string, rest: string)
    requires !s.inQuotes && !NeedsQuotes(field)
    ensures Parse(s, field + rest) == Parse(s.(field := s.field + field), rest)
    decreases |field|
  {
    if field == "" {
      assert field + rest == rest && s.field + field == s.field;
    } else {
      assert (field + rest)[1..] == field[1..] + rest;
      assert s.field + field == s.field + [field[0]] + field[1..];
      assert field[0] in field && forall c :: c in field[1..] ==> c in field;
      ReadPlain(s.(field := s.field + [field[0]]), field[1..], rest);
    }
  }

  lemma ReadQuotedField(fields: seq<string>, field: string, rest: string)
    requires rest == "" || rest[0] == ','
    ensures Parse(Scan(fields, "", false), PrintField(field, true) + rest) == Parse(Scan(fields, field, false), rest)
  {
    hide Doubled;
    var line, body := PrintField(field, true) + rest, Doubled(field) + "\"" + rest;
    assert line[0] == '"' && line[1..] == body;
    assert Parse(Scan(fields, "", false), line) == Parse(Scan(fields, "", true), body);
    ReadQuoted(Scan(fields, "", true), field, rest);
    assert "" + field == field;
  }

  lemma ReadField(fields: seq<string>, field: string, quoted: bool, rest: string)
    requires NeedsQuotes(field) ==> quoted
    requires rest == "" || rest[0] == ','
    ensures Parse(Scan(fields, "", false), PrintField(field, quoted) + rest) == Parse(Scan(fields, field, false), rest)
  {
    hide NeedsQuotes, Parse;
    if quoted {
      ReadQuotedField(fields, field, rest);
    } else {
      ReadPlain(Scan(fields, "", false), field, rest);
      assert "" + field == field;
    }
  }

  /** What follows the first field of a printed line. */
  function Rest(fields: seq<string>, quoted: seq<bool>): string
    requires |fields| == |quoted| && fields != []
  {
    if |fields| == 1 then "" else "," + PrintLine(fields[1..], quoted[1..])
  }

  lemma LineSplit(fields: seq<string>, quoted: seq<bool>)
    requires |fields| == |quoted| && fields != []
    ensures PrintLine(fields, quoted) == PrintField(fields[0], quoted[0]) + Rest(fields, quoted)
    ensures Rest(fields, quoted) == "" || Rest(fields, quoted)[0] == ','
  {
    hide PrintField;
    if |fields| == 1 {
      assert PrintField(fields[0], quoted[0]) + "" == PrintField(fields[0], quoted[0]);
    } else {
      CommaBetween(PrintField(fields[0], quoted[0]), PrintLine(fields[1..], quoted[1..]));
    }
  }

  lemma CommaBetween(f: string, l: string)
    ensures f + "," + l == f + ("," + l) && ("," + l)[0] == ','
  {
  }

  /** After a first field that is read back, the rest is scanned like a line. */
  lemma GoodFirst(before: seq<string>, fields: seq<string>, quoted: seq<bool>)
    requires |fields| == |quoted| > 1 && (NeedsQuotes(fields[0]) ==> quoted[0])
    ensures Parse(Scan(before, "", false), PrintLine(fields, quoted))
            == Parse(Scan(before + [fields[0]], "", false), PrintLine(fields[1..], quoted[1..]))
  {
    hide NeedsQuotes, PrintLine, PrintField;
    LineSplit(fields, quoted);
    var rest := Rest(fields, quoted);
    ReadField(before, fields[0], quoted[0], rest);
    assert rest[1..] == PrintLine(fields[1..], quoted[1..]);
  }

  lemma {:induction false} ReadLine(before: seq<string>, fields: seq<string>, quoted: seq<bool>)
    requires |fields| == |quoted| && fields != []
    requires forall i | 0 <= i < |fields| :: NeedsQuotes(fields[i]) ==> quoted[i]
    ensures Finish(Parse(Scan(before, "", false), PrintLine(fields, quoted))) == before + fields
    decreases |fields|
  {
    hide PrintField, NeedsQuotes;
    if |fields| == 1 {
      var text := PrintField(fields[0], quoted[0]);
      assert text + "" == text;
      ReadField(before, fields[0], quoted[0], "");
      assert fields == [fields[0]];
    } else {
      GoodFirst(before, fields, quoted);
      ReadLine(before + [fields[0]], fields[1..], quoted[1..]);
      assert before + [fields[0]] + fields[1..] == before + fields;
    }
  }

  // ---- Only what was written by the rules is read back ----

  /** The scan has already produced something else than `field` as field number k. */
  predicate Diverged(s: Scan, k: nat, field: string) {
    (|s.fields| > k && s.fields[k] != field) || (|s.fields| == k && !(s.field <= field))
  }

  ghost predicate Differs(fields: seq<string>, k: nat, field: string) {
    |fields| > k && fields[k] != field
  }

  lemma {:induction false} DivergedStays(s: Scan, line: string, k: nat, field: string)
    requires Diverged(s, k, field)
    ensures Differs(Finish(Parse(s, line)), k, field)
    decreases |line|
  {
    if line != "" {
      var c := line[0];
      if s.inQuotes && c == '"' && |line| > 1 && line[1] == '"' {
        DivergedStays(s.(field := s.field + "\""), line[2..], k, field);
      } else if s.inQuotes && c == '"' {
        DivergedStays(s.(inQuotes := false), line[1..], k, field);
      } else if !s.inQuotes && c == '"' {
        DivergedStays(s.(inQuotes := true), line[1..], k, field);
      } else if !s.inQuotes && c == ',' {
        DivergedStays(Scan(s.fields + [s.field], "", false), line[1..], k, field);
      } else {
        DivergedStays(s.(field := s.field + [c]), line[1..], k, field);
      }
    }
  }

  function Quotes(n: nat): string {
    seq(n, _ => '"')
  }

  /** A character that is wrong at its place in the field. */
  lemma WrongChar(fields: seq<string>, inQuotes: bool, text: string, c: char, line: string, field: string)
    requires |text| < |field| && field[|text|] != c
    ensures Differs(Finish(Parse(Scan(fields, text + [c], inQuotes), line)), |fields|, field)
  {
    DivergedStays(Scan(fields, text + [c], inQuotes), line, |fields|, field);
  }

  /** The field ends before its text is complete. */
  lemma TooShort(fields: seq<string>, text: string, rest: string, field: string)
    requires |text| < |field| && (rest == "" || rest[0] == ',')
    ensures Differs(Finish(Parse(Scan(fields, text, false), rest)), |fields|, field)
  {
    if rest != "" {
      DivergedStays(Scan(fields + [text], "", false), rest[1..], |fields|, field);
    }
  }

  /** After an opening quote in the middle of a plain field, pairs of quotes count once each, so the
      output falls behind the field and the next other character is out of place. */
  lemma {:induction false} QuoteDiverges(fields: seq<string>, before: string, t: nat, tail: string, rest: string,
                                         field: string)
    requires field == before + Quotes(2 * t + 1) + tail && (rest == "" || rest[0] == ',')
    ensures Differs(Finish(Parse(Scan(fields, before + Quotes(t), true), tail + rest)), |fields|, field)
    decreases |tail|
  {
    var text, line := before + Quotes(t), tail + rest;
    assert field[|text|] == '"';
    if tail == "" {
      assert line == rest;
      if rest != "" {
        WrongChar(fields, true, text, ',', rest[1..], field);
      }
    } else if tail[0] != '"' {
      assert line[0] == tail[0] && line[1..] == tail[1..] + rest;
      WrongChar(fields, true, text, tail[0], line[1..], field);
    } else if |tail| > 1 && tail[1] == '"' {
      assert line[0] == line[1] == '"' && line[2..] == tail[2..] + rest;
      assert text + "\"" == before + Quotes(t + 1);
      assert field == before + Quotes(2 * (t + 1) + 1) + tail[2..];
      QuoteDiverges(fields, before, t + 1, tail[2..], rest, field);
    } else if |tail| == 1 {
      assert line[0] == '"' && line[1..] == rest;
      TooShort(fields, text, rest, field);
    } else {
      var c, after := tail[1], tail[2..] + rest;
      assert line[0] == '"' && line[1..] == [c] + after && line[1..][1..] == after;
      if c == ',' {
        TooShort(fields, text, line[1..], field);
      } else {
        WrongChar(fields, false, text, c, after, field);
      }
    }
  }

  /** A plain field with a comma or a quote is read as something else. */
  lemma {:induction false} PlainDiverges(fields: seq<string>, before: string, tail: string, rest: string, field: string)
    requires field == before + tail && NeedsQuotes(tail) && (rest == "" || rest[0] == ',')
    ensures Differs(Finish(Parse(Scan(fields, before, false), tail + rest)), |fields|, field)
    decreases |tail|
  {
    var c, line := tail[0], tail + rest;
    assert line[0] == c && line[1..] == tail[1..] + rest;
    if c == ',' {
      DivergedStays(Scan(fields + [before], "", false), line[1..], |fields|, field);
    } else if c == '"' {
      assert before + Quotes(0) == before && field == before + Quotes(1) + tail[1..];
      QuoteDiverges(fields, before, 0, tail[1..], rest, field);
    } else {
      assert forall x :: x in tail <==> x == c || x in tail[1..];
      PlainDiverges(fields, before + [c], tail[1..], rest, field);
    }
  }

  predicate WellQuoted(fields: seq<string>, quoted: seq<bool>)
    requires |fields| == |quoted|
  {
    forall i | 0 <= i < |fields| :: NeedsQuotes(fields[i]) ==> quoted[i]
  }

  lemma BadFirst(before: seq<string>, fields: seq<string>, quoted: seq<bool>)
    requires |fields| == |quoted| && fields != [] && NeedsQuotes(fields[0]) && !quoted[0]
    ensures Finish(Parse(Scan(before, "", false), PrintLine(fields, quoted))) != before + fields
  {
    hide NeedsQuotes, PrintLine, Parse, Finish;
    LineSplit(fields, quoted);
    assert "" + fields[0] == fields[0];
    PlainDiverges(before, "", fields[0], Rest(fields, quoted), fields[0]);
    assert (before + fields)[|before|] == fields[0];
  }

  lemma {:induction false} BadLine(before: seq<string>, fields: seq<string>, quoted: seq<bool>)
    requires |fields| == |quoted| && fields != [] && !WellQuoted(fields, quoted)
    ensures Finish(Parse(Scan(before, "", false), PrintLine(fields, quoted))) != before + fields
    decreases |fields|
  {
    hide NeedsQuotes, PrintLine, Parse, Finish;
    if NeedsQuotes(fields[0]) && !quoted[0] {
      BadFirst(before, fields, quoted);
    } else {
      var k :| 0 <= k < |fields| && NeedsQuotes(fields[k]) && !quoted[k];
      assert NeedsQuotes(fields[1..][k - 1]) && !quoted[1..][k - 1];
      GoodFirst(before, fields, quoted);
      BadLine(before + [fields[0]], fields[1..], quoted[1..]);
      assert before + [fields[0]] + fields[1..] == before + fields;
    }
  }

  /** A line is read back as its fields exactly if every field with a comma or a quote was quoted. */
  lemma LineParsesIff(fields: seq<string>, quoted: seq<bool>)
    requires |fields| == |quoted| && fields != []
    ensures Finish(Parse(Scan([], "", false), PrintLine(fields, quoted))) == fields <==> WellQuoted(fields, quoted)
  {
    assert [] + fields == fields;
    if WellQuoted(fields, quoted) {
      ReadLine([], fields, quoted);
    } else {
      BadLine([], fields, quoted);
    }
  }
}
