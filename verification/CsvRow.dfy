/** One row of comma-separated values with quoted fields and doubled quotes. */
module CsvRow {

  /** The fields of the rest of a row, from the current field's text and whether it is inside quotes. */
  function Fields(s: string, field: string, inQuotes: bool): seq<string>
    decreases |s|
  {
    if s == "" then [field]
    else if s[0] == '"' then
      if !inQuotes then
        if field != "" then Fields(s[1..], field + "\"", false) else Fields(s[1..], field, true)
      else if |s| > 1 && s[1] == '"' then Fields(s[2..], field + "\"", true)
      else Fields(s[1..], field, false)
    else if s[0] == ',' && !inQuotes then [field] + Fields(s[1..], "", false)
    else Fields(s[1..], field + [s[0]], inQuotes)
  }

  method ParseCsvRow(input: string) returns (fields: seq<string>)
    ensures fields == Fields(input, "", false)
    ensures |fields| == 1 + CommasOutside(input, true, false)
  {
    FieldCount(input, "", false);
    fields := [];
    var field := "";
    var inQuotes := false;
    var i := 0;
    ghost var goal := Fields(input, "", false);
    assert input[0..] == input && [] + goal == goal;
    while i < |input|
      invariant 0 <= i <= |input|
      invariant fields + Fields(input[i..], field, inQuotes) == goal
    {
      var ch := input[i];
      ghost var rest := input[i..];
      assert rest[0] == ch && rest[1..] == input[i + 1..];
      if ch == '"' {
        if !inQuotes {
          if field != "" {
            field := field + "\"";
          } else {
            inQuotes := true;
          }
        } else {
          if i + 1 < |input| && input[i + 1] == '"' {
            assert rest[2..] == input[i + 2..];
            field := field + "\"";
            i := i + 1;
          } else {
            inQuotes := false;
          }
        }
      } else if ch == ',' {
        if inQuotes {
          field := field + ",";
        } else {
          ghost var after := Fields(input[i + 1..], "", false);
          assert fields + ([field] + after) == (fields + [field]) + after;
          fields := fields + [field];
          field := "";
        }
      } else {
        field := field + [ch];
      }
      i := i + 1;
    }
    fields := fields + [field];
  }

  // ---------------------------------------------------------------- how many fields

  /** Commas that are not inside quotes. A quote opens a quotation only while the field is empty, and
      a doubled one inside a quotation does not close it. */
  function CommasOutside(s: string, empty: bool, inQuotes: bool): nat
    decreases |s|
  {
    if s == "" then 0
    else if s[0] == '"' then
      if !inQuotes then CommasOutside(s[1..], empty, empty)
      else if |s| > 1 && s[1] == '"' then CommasOutside(s[2..], false, true)
      else CommasOutside(s[1..], empty, false)
    else if s[0] == ',' && !inQuotes then 1 + CommasOutside(s[1..], true, false)
    else CommasOutside(s[1..], false, inQuotes)
  }

  lemma {:induction false} FieldCount(s: string, field: string, inQuotes: bool)
    ensures |Fields(s, field, inQuotes)| == 1 + CommasOutside(s, field == "", inQuotes)
    decreases |s|
  {
    if s == "" {
    } else if s[0] == '"' {
      if !inQuotes {
        if field != "" { FieldCount(s[1..], field + "\"", false); } else { FieldCount(s[1..], field, true); }
      } else if |s| > 1 && s[1] == '"' {
        FieldCount(s[2..], field + "\"", true);
      } else {
        FieldCount(s[1..], field, false);
      }
    } else if s[0] == ',' && !inQuotes {
      FieldCount(s[1..], "", false);
    } else {
      FieldCount(s[1..], field + [s[0]], inQuotes);
    }
  }

  // ---------------------------------------------------------------- what the fields hold

  /** The row without its quotation marks: a quote opens a quotation only while the field is empty, a doubled
      one inside it is one quote, and any other quote inside it closes it. */
  function Kept(s: string, empty: bool, inQuotes: bool): string
    decreases |s|
  {
    if s == "" then ""
    else if s[0] != '"' then [s[0]] + Kept(s[1..], s[0] == ',' && !inQuotes, inQuotes)
    else if !inQuotes then if empty then Kept(s[1..], true, true) else "\"" + Kept(s[1..], false, false)
    else if |s| > 1 && s[1] == '"' then "\"" + Kept(s[2..], false, true)
    else Kept(s[1..], empty, false)
  }

  lemma KeptOn(field: string, c: char, rest: string)
    ensures field + [c] + rest == field + ([c] + rest)
  {
  }

  /** No character is lost: joining the fields gives the row without its quotation marks. */
  lemma {:induction false} FieldsKeep(s: string, field: string, inQuotes: bool)
    ensures Fields(s, field, inQuotes) != []
    ensures Joined(Fields(s, field, inQuotes)) == field + Kept(s, field == "", inQuotes)
    decreases |s|
  {
    if s == "" {
      assert field + "" == field;
    } else if s[0] == '"' {
      if !inQuotes {
        if field != "" {
          FieldsKeep(s[1..], field + "\"", false);
          KeptOn(field, '"', Kept(s[1..], false, false));
        } else {
          FieldsKeep(s[1..], field, true);
        }
      } else if |s| > 1 && s[1] == '"' {
        FieldsKeep(s[2..], field + "\"", true);
        KeptOn(field, '"', Kept(s[2..], false, true));
      } else {
        FieldsKeep(s[1..], field, false);
      }
    } else if s[0] == ',' && !inQuotes {
      NewField(s, field);
    } else {
      FieldsKeep(s[1..], field + [s[0]], inQuotes);
      KeptOn(field, s[0], Kept(s[1..], false, inQuotes));
    }
  }

  lemma {:induction false} NewField(s: string, field: string)
    requires s != "" && s[0] == ','
    ensures Fields(s, field, false) != []
    ensures Joined(Fields(s, field, false)) == field + Kept(s, field == "", false)
    decreases |s|, 0
  {
    FieldsKeep(s[1..], "", false);
    var after, kept := Fields(s[1..], "", false), Kept(s[1..], true, false);
    assert ([field] + after)[1..] == after && "" + kept == kept;
    assert Fields(s, field, false) == [field] + after && Kept(s, field == "", false) == "," + kept;
    KeptOn(field, ',', kept);
  }

  // ---------------------------------------------------------------- writing a row

  function Doubled(f: string): string {
    if f == "" then "" else (if f[0] == '"' then "\"\"" else [f[0]]) + Doubled(f[1..])
  }

  datatype Style = Quoted | Bare

  /** A field can stand without quotes when it holds no comma and does not begin with a quote. */
  predicate Fits(f: string, style: Style) {
    style == Bare ==> ',' !in f && (f == "" || f[0] != '"')
  }

  function Written(f: string, style: Style): string {
    if style == Bare then f else "\"" + Doubled(f) + "\""
  }

  function Row(fields: seq<string>, styles: seq<Style>): string
    requires |fields| == |styles| > 0
  {
    if |fields| == 1 then Written(fields[0], styles[0])
    else Written(fields[0], styles[0]) + "," + Row(fields[1..], styles[1..])
  }

  /** The end of a row, or a comma: where a quotation may close. */
  predicate EndsField(tail: string) {
    tail == "" || tail[0] == ','
  }

  lemma {:induction false} ReadDoubled(f: string, tail: string, done: string)
    requires EndsField(tail)
    ensures Fields(Doubled(f) + "\"" + tail, done, true) == Fields(tail, done + f, false)
    decreases |f|
  {
    var s := Doubled(f) + "\"" + tail;
    if f == "" {
      assert s == "\"" + tail;
      assert s[1..] == tail && done + f == done;
    } else {
      var rest := Doubled(f[1..]) + "\"" + tail;
      assert done + f == done + [f[0]] + f[1..];
      ReadDoubled(f[1..], tail, done + [f[0]]);
      if f[0] == '"' {
        assert s == "\"\"" + rest;
        assert s[2..] == rest;
      } else {
        assert s == [f[0]] + rest;
        assert s[1..] == rest;
      }
    }
  }

  lemma {:induction false} ReadBare(f: string, tail: string, done: string)
    requires ',' !in f && (f == "" || done != "" || f[0] != '"')
    ensures Fields(f + tail, done, false) == Fields(tail, done + f, false)
    decreases |f|
  {
    if f == "" {
      assert f + tail == tail && done + f == done;
    } else {
      assert (f + tail)[1..] == f[1..] + tail;
      assert done + f == done + [f[0]] + f[1..];
      ReadBare(f[1..], tail, done + [f[0]]);
    }
  }

  lemma OpenQuote(s: string)
    ensures Fields("\"" + s, "", false) == Fields(s, "", true)
  {
    assert ("\"" + s)[1..] == s;
  }

  lemma ReadWritten(f: string, style: Style, tail: string)
    requires Fits(f, style) && EndsField(tail)
    ensures Fields(Written(f, style) + tail, "", false) == Fields(tail, f, false)
  {
    hide Fields, Doubled;
    assert "" + f == f;
    if style == Bare {
      ReadBare(f, tail, "");
    } else {
      var body := Doubled(f) + "\"" + tail;
      assert Written(f, style) + tail == "\"" + body;
      OpenQuote(body);
      ReadDoubled(f, tail, "");
    }
  }

  /** Parsing a written row gives its fields back, whatever mixture of quoted and bare fields it uses. */
  lemma {:induction false} RoundTrip(fields: seq<string>, styles: seq<Style>)
    requires |fields| == |styles| > 0
    requires forall i | 0 <= i < |fields| :: Fits(fields[i], styles[i])
    ensures Fields(Row(fields, styles), "", false) == fields
    decreases |fields|
  {
    var f, style := fields[0], styles[0];
    if |fields| == 1 {
      ReadWritten(f, style, "");
      assert Written(f, style) + "" == Written(f, style);
    } else {
      var rest := Row(fields[1..], styles[1..]);
      RoundTrip(fields[1..], styles[1..]);
      ReadWritten(f, style, "," + rest);
      assert Written(f, style) + "," + rest == Written(f, style) + ("," + rest);
      assert ("," + rest)[1..] == rest;
    }
  }

  function Joined(fields: seq<string>): string
    requires fields != []
  {
    if |fields| == 1 then fields[0] else fields[0] + "," + Joined(fields[1..])
  }

  /** Without quotes a row is cut at its commas and nothing else: joining the fields restores it. */
  lemma {:induction false} PlainRow(s: string, field: string)
    requires '"' !in s && ',' !in field
    ensures Fields(s, field, false) != []
    ensures Joined(Fields(s, field, false)) == field + s
    ensures forall i | 0 <= i < |Fields(s, field, false)| :: ',' !in Fields(s, field, false)[i]
    decreases |s|
  {
    if s == "" {
      assert field + s == field;
    } else if s[0] == ',' {
      PlainRow(s[1..], "");
      var after := Fields(s[1..], "", false);
      assert "" + s[1..] == s[1..];
      assert ([field] + after)[1..] == after;
      assert field + s == field + "," + s[1..];
    } else {
      PlainRow(s[1..], field + [s[0]]);
      assert field + s == field + [s[0]] + s[1..];
    }
  }
}
