/** Comma-separated rows: the parser and the rows it reads back. */
module Csv {

  const QUOTE := '\"'

  /** What the parser makes of the rest of a row, after `fields` and the beginning `field`. */
  function Scan(s: string, fields: seq<string>, field: string, quoted: bool): seq<string> {
    if s == "" then fields + [field]
    else if s[0] == QUOTE then
      if !quoted then
        if field != "" then Scan(s[1..], fields, field + [QUOTE], false) else Scan(s[1..], fields, field, true)
      else if |s| > 1 && s[1] == QUOTE then Scan(s[2..], fields, field + [QUOTE], true)
      else Scan(s[1..], fields, field, false)
    else if s[0] == ',' && !quoted then Scan(s[1..], fields + [field], "", false)
    else Scan(s[1..], fields, field + [s[0]], quoted)
  }

  function Parsed(s: string): seq<string> {
    Scan(s, [], "", false)
  }

  method ParseCsvRow(input: string) returns (fields: seq<string>)
    ensures fields == Parsed(input)
  {
    fields := [];
    var field, quoted, i := "", false, 0;
    assert input[0..] == input;
    while i < |input|
      invariant 0 <= i <= |input| && Scan(input[i..], fields, field, quoted) == Parsed(input)
    {
      var ch := input[i];
      ghost var rest := input[i..];
      assert rest[1..] == input[i + 1..];
      if ch == QUOTE {
        if !quoted {
          if field != "" {
            field := field + [QUOTE];
          } else {
            quoted := true;
          }
        } else {
          if i + 1 < |input| && input[i + 1] == QUOTE {
            field := field + [QUOTE];
            i := i + 1;
            assert rest[2..] == input[i + 1..];
          } else {
            quoted := false;
          }
        }
      } else if ch == ',' {
        if quoted {
          field := field + [','];
        } else {
          fields := fields + [field];
          field := "";
        }
      } else {
        field := field + [ch];
      }
      i := i + 1;
    }
    fields := fields + [field];
  }

  // ---------------------------------------------------------------------
  // Reading back what was written

  /** A field as written: in quotes, or as it is. */
  datatype Cell = Quoted(text: string) | Raw(text: string)

  function Doubled(s: string): string {
    if s == "" then "" else (if s[0] == QUOTE then [QUOTE, QUOTE] else [s[0]]) + Doubled(s[1..])
  }

  function Written(c: Cell): string {
    match c case Quoted(t) => [QUOTE] + Doubled(t) + [QUOTE] case Raw(t) => t
  }

  function Row(cells: seq<Cell>): string
    requires cells != []
  {
    if |cells| == 1 then Written(cells[0]) else Written(cells[0]) + [','] + Row(cells[1..])
  }

  /** Text that can stand without quotes: no comma, and no quote at the front. */
  predicate Bare(s: string) {
    ',' !in s && (s == "" || s[0] != QUOTE)
  }

  predicate Writable(cells: seq<Cell>) {
    forall i :: 0 <= i < |cells| && cells[i].Raw? ==> Bare(cells[i].text)
  }

  function Texts(cells: seq<Cell>): seq<string> {
    seq(|cells|, i requires 0 <= i < |cells| => cells[i].text)
  }

  /** After a field comes a comma or the end. */
  predicate Delimited(rest: string) {
    rest == "" || rest[0] == ','
  }

  lemma {:induction false} ScanQuoted(f: string, rest: string, fields: seq<string>, field: string)
    requires Delimited(rest)
    ensures Scan(Doubled(f) + [QUOTE] + rest, fields, field, true) == Scan(rest, fields, field + f, false)
    decreases |f|
  {
    var s := Doubled(f) + [QUOTE] + rest;
    if f == "" {
      assert s[1..] == rest && field + f == field;
    } else {
      var tail := Doubled(f[1..]) + [QUOTE] + rest;
      ScanQuoted(f[1..], rest, fields, field + [f[0]]);
      assert field + f == field + [f[0]] + f[1..];
      if f[0] == QUOTE {
        assert s[2..] == tail;
      } else {
        assert s[1..] == tail;
      }
    }
  }

  lemma {:induction false} ScanRaw(f: string, rest: string, fields: seq<string>, field: string)
    requires ',' !in f && (field != "" || Bare(f))
    ensures Scan(f + rest, fields, field, false) == Scan(rest, fields, field + f, false)
    decreases |f|
  {
    if f == "" {
      assert f + rest == rest && field + f == field;
    } else {
      ScanRaw(f[1..], rest, fields, field + [f[0]]);
      assert (f + rest)[1..] == f[1..] + rest;
      assert field + f == field + [f[0]] + f[1..];
    }
  }

  lemma ScanCell(c: Cell, rest: string, fields: seq<string>)
    requires Delimited(rest) && (c.Raw? ==> Bare(c.text))
    ensures Scan(Written(c) + rest, fields, "", false) == Scan(rest, fields, c.text, false)
  {
    assert "" + c.text == c.text;
    if c.Quoted? {
      ScanQuoted(c.text, rest, fields, "");
      assert (Written(c) + rest)[1..] == Doubled(c.text) + [QUOTE] + rest;
    } else {
      ScanRaw(c.text, rest, fields, "");
    }
  }

  lemma {:induction false} ScanRow(cells: seq<Cell>, fields: seq<string>)
    requires cells != [] && Writable(cells)
    ensures Scan(Row(cells), fields, "", false) == fields + Texts(cells)
    decreases |cells|
  {
    var c, rest := cells[0], if |cells| == 1 then "" else [','] + Row(cells[1..]);
    ScanCell(c, rest, fields);
    assert Row(cells) == Written(c) + rest;
    if |cells| == 1 {
      assert Texts(cells) == [c.text];
    } else {
      ScanRow(cells[1..], fields + [c.text]);
      assert rest[1..] == Row(cells[1..]);
      assert Texts(cells) == [c.text] + Texts(cells[1..]);
      assert fields + [c.text] + Texts(cells[1..]) == fields + Texts(cells);
    }
  }

  /** Parsing inverts writing, however each field was written. */
  lemma ParseRow(cells: seq<Cell>)
    requires cells != [] && Writable(cells)
    ensures Parsed(Row(cells)) == Texts(cells)
  {
    ScanRow(cells, []);
    assert [] + Texts(cells) == Texts(cells);
  }

  // ---------------------------------------------------------------------
  // When quotes are needed

  function Size(fields: seq<string>): nat {
    if fields == [] then 0 else Size(fields[..|fields| - 1]) + |fields[|fields| - 1]|
  }

  lemma SizeAppend(fields: seq<string>, f: string)
    ensures Size(fields + [f]) == Size(fields) + |f|
  {
    assert (fields + [f])[..|fields|] == fields;
  }

  /** Nothing is invented: every character of a field, and every field after the first, comes from
      a character of the row. */
  lemma {:induction false} ScanSize(s: string, fields: seq<string>, field: string, quoted: bool)
    ensures |Scan(s, fields, field, quoted)| > |fields|
    ensures Size(Scan(s, fields, field, quoted)) + |Scan(s, fields, field, quoted)| <= Size(fields) + |field| + |fields| + 1 + |s|
    decreases |s|
  {
    if s == "" {
      SizeAppend(fields, field);
    } else if s[0] == QUOTE {
      ScanSizeQuote(s, fields, field, quoted);
    } else if s[0] == ',' && !quoted {
      SizeAppend(fields, field);
      ScanSize(s[1..], fields + [field], "", false);
    } else {
      ScanSize(s[1..], fields, field + [s[0]], quoted);
    }
  }

  lemma {:induction false} ScanSizeQuote(s: string, fields: seq<string>, field: string, quoted: bool)
    requires s != "" && s[0] == QUOTE
    ensures |Scan(s, fields, field, quoted)| > |fields|
    ensures Size(Scan(s, fields, field, quoted)) + |Scan(s, fields, field, quoted)| <= Size(fields) + |field| + |fields| + 1 + |s|
    decreases |s|, 0
  {
    if !quoted {
      if field != "" {
        ScanSize(s[1..], fields, field + [QUOTE], false);
      } else {
        ScanSize(s[1..], fields, field, true);
      }
    } else if |s| > 1 && s[1] == QUOTE {
      ScanSize(s[2..], fields, field + [QUOTE], true);
    } else {
      ScanSize(s[1..], fields, field, false);
    }
  }

  /** A comma before any leading quote ends the field. */
  lemma CommaSplits(s: string, k: nat)
    requires k < |s| && s[k] == ',' && Bare(s[..k])
    ensures |Parsed(s)| >= 2
  {
    var rest := s[k..];
    ScanRaw(s[..k], rest, [], "");
    assert s == s[..k] + rest && "" + s[..k] == s[..k];
    assert [] + [s[..k]] == [s[..k]];
    ScanSize(rest[1..], [s[..k]], "", false);
  }

  lemma FirstComma(s: string) returns (k: nat)
    requires ',' in s
    ensures k < |s| && s[k] == ',' && ',' !in s[..k]
  {
    k := 0;
    while s[k] != ','
      invariant k < |s| && ',' !in s[..k]
      decreases |s| - k
    {
      assert s[..k + 1] == s[..k] + [s[k]];
      assert ',' in s[k + 1..] by { assert s == s[..k + 1] + s[k + 1..]; }
      k := k + 1;
    }
  }

  /** A field may be left bare exactly when it has no comma and no quote at the front. */
  lemma BareExactly(f: string)
    ensures Parsed(f) == [f] <==> Bare(f)
  {
    if Bare(f) {
      ParseRow([Raw(f)]);
      assert Texts([Raw(f)]) == [f];
    } else if f != "" && f[0] == QUOTE {
      ScanSize(f[1..], [], "", true);
      SizeAppend([], f);
    } else {
      var k := FirstComma(f);
      assert k > 0 ==> f[..k][0] == f[0];
      CommaSplits(f, k);
    }
  }
}
