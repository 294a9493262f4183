/** The CSV codec of src/save_load.cpp: field escaping, the record line written by
    `saveItemsToFile`, the quote-aware splitter `parseCSVLine`, and the per-line
    accept/skip rule of `loadItemsFromFile`. A file is its text (when saving) or the
    sequence of lines `getline` reads from it (when loading). */
module SaveLoad {
  import opened Wrappers
  import opened ItemClass
  import opened Store

  const QUOTE: char := '"'
  const COMMA: char := ','
  const NEWLINE: char := '\n'

  /** The default separator of `saveItemsToFile` (src/save_load.h). */
  const DEFAULT_SEPARATOR: char := ','

  /** Number of occurrences of c in s. */
  function Count(c: char, s: string): nat {
    multiset(s)[c]
  }

  /** s with every `"` removed: what `parseCSVLine` keeps of a quoted field. */
  function Unquoted(s: string): (r: string)
    ensures QUOTE !in r
  {
    if s == [] then []
    else Unquoted(s[..|s| - 1]) + (if s[|s| - 1] == QUOTE then [] else [s[|s| - 1]])
  }

  lemma {:induction false} UnquotedNoQuote(s: string)
    requires QUOTE !in s
    ensures Unquoted(s) == s
  {
    if s != [] {
      assert QUOTE !in s[..|s| - 1];
      UnquotedNoQuote(s[..|s| - 1]);
    }
  }

  // ---------------------------------------------------------------------------
  // escapeForCSV

  /** What one character of a field becomes inside the quotes. */
  function Piece(c: char): string {
    if c == QUOTE then [QUOTE, QUOTE] else [c]
  }

  /** The inside of an escaped field: every `"` doubled, every other character kept. */
  function Doubled(s: string): string {
    if s == [] then [] else Doubled(s[..|s| - 1]) + Piece(s[|s| - 1])
  }

  /** The text `escapeForCSV` returns: the field between quotes, embedded quotes doubled.
      Quoting is unconditional. */
  function Escaped(field: string): string {
    [QUOTE] + Doubled(field) + [QUOTE]
  }

  method EscapeForCSV(field: string) returns (escapedField: string)
    ensures escapedField == Escaped(field)
  {
    escapedField := [QUOTE];
    var i := 0;
    while i < |field|
      invariant 0 <= i <= |field|
      invariant escapedField == [QUOTE] + Doubled(field[..i])
    {
      var c := field[i];
      assert field[..i + 1][..i] == field[..i];
      if c == QUOTE {
        escapedField := escapedField + [QUOTE, QUOTE];
      } else {
        escapedField := escapedField + [c];
      }
      i := i + 1;
    }
    assert field[..i] == field;
    escapedField := escapedField + [QUOTE];
  }

  lemma {:induction false} DoubledLength(s: string)
    ensures |Doubled(s)| == |s| + Count(QUOTE, s)
  {
    if s != [] {
      var s' := s[..|s| - 1];
      assert s == s' + [s[|s| - 1]];
      DoubledLength(s');
    }
  }

  /** The escaped field starts and ends with a quote and is longer than the
      field by two plus one per embedded quote. */
  lemma EscapedShape(s: string)
    ensures |Escaped(s)| == |s| + 2 + Count(QUOTE, s)
    ensures Escaped(s)[0] == QUOTE && Escaped(s)[|Escaped(s)| - 1] == QUOTE
  {
    DoubledLength(s);
  }

  /** The decoding of rule 7 of section 2 of RFC 4180: a doubled quote stands for one quote. */
  function Undoubled(t: string): string {
    if t == [] then []
    else if |t| >= 2 && t[|t| - 1] == QUOTE && t[|t| - 2] == QUOTE then Undoubled(t[..|t| - 2]) + [QUOTE]
    else Undoubled(t[..|t| - 1]) + [t[|t| - 1]]
  }

  /** Escaping loses nothing: the inside of an escaped field, read by the rules of
      RFC 4180, is the field again. So every non-quote character is copied in order
      and every quote becomes two. */
  lemma {:induction false} EscapeIsInvertible(s: string)
    ensures Undoubled(Doubled(s)) == s
    ensures Escaped(s)[1..|Escaped(s)| - 1] == Doubled(s)
  {
    if s != [] {
      var s' := s[..|s| - 1];
      var c := s[|s| - 1];
      EscapeIsInvertible(s');
      var d := Doubled(s);
      if c == QUOTE {
        assert d[..|d| - 2] == Doubled(s');
      } else {
        assert d[..|d| - 1] == Doubled(s');
      }
      assert s == s' + [c];
    }
  }

  // ---------------------------------------------------------------------------
  // parseCSVLine

  /** The loop state of `parseCSVLine`: the finished fields, the field being
      accumulated, and whether the scan is inside quotes. */
  datatype Tokenizer = Tokenizer(fields: seq<string>, field: string, inQuotes: bool)

  const START: Tokenizer := Tokenizer([], [], false)

  /** One iteration of the loop: a quote only toggles, a comma outside quotes ends
      the field, anything else is appended. The comma is hard-coded. */
  function Step(st: Tokenizer, c: char): Tokenizer {
    if c == QUOTE then st.(inQuotes := !st.inQuotes)
    else if c == COMMA && !st.inQuotes then Tokenizer(st.fields + [st.field], [], false)
    else st.(field := st.field + [c])
  }

  function Run(st: Tokenizer, s: string): Tokenizer {
    if s == [] then st else Step(Run(st, s[..|s| - 1]), s[|s| - 1])
  }

  lemma RunOne(st: Tokenizer, c: char)
    ensures Run(st, [c]) == Step(st, c)
  {
    assert [c][..0] == [];
  }

  lemma RunSnoc(st: Tokenizer, s: string, k: nat)
    requires k < |s|
    ensures Run(st, s[..k + 1]) == Step(Run(st, s[..k]), s[k])
  {
    assert s[..k + 1][..k] == s[..k];
  }

  /** The fields `parseCSVLine` returns. */
  function Parsed(line: string): seq<string> {
    var st := Run(START, line);
    st.fields + [st.field]
  }

  method ParseCSVLine(line: string) returns (fields: seq<string>)
    ensures fields == Parsed(line)
  {
    fields := [];
    var field: string := [];
    var inQuotes := false;
    var i := 0;
    while i < |line|
      invariant 0 <= i <= |line|
      invariant Tokenizer(fields, field, inQuotes) == Run(START, line[..i])
    {
      var c := line[i];
      assert line[..i + 1][..i] == line[..i];
      if c == QUOTE {
        inQuotes := !inQuotes;
      } else if c == COMMA && !inQuotes {
        fields := fields + [field];
        field := [];
      } else {
        field := field + [c];
      }
      i := i + 1;
    }
    assert line[..i] == line;
    fields := fields + [field];
  }

  lemma {:induction false} RunConcat(st: Tokenizer, a: string, b: string)
    ensures Run(st, a + b) == Run(Run(st, a), b)
    decreases |b|
  {
    if b == [] {
      assert a + b == a;
    } else {
      var b' := b[..|b| - 1];
      assert (a + b)[..|a + b| - 1] == a + b';
      RunConcat(st, a, b');
    }
  }

  /** Commas met while the number of quotes before them is even, that is, outside quotes. */
  function UnquotedCommas(s: string): nat {
    if s == [] then 0
    else
      var s' := s[..|s| - 1];
      UnquotedCommas(s') + (if s[|s| - 1] == COMMA && Count(QUOTE, s') % 2 == 0 then 1 else 0)
  }

  /** Fields joined back with the hard-coded comma. */
  function Join(fields: seq<string>): string
    requires |fields| > 0
  {
    if |fields| == 1 then fields[0] else Join(fields[..|fields| - 1]) + [COMMA] + fields[|fields| - 1]
  }

  /** The tokenizer is inside quotes exactly after an odd number of quotes. */
  lemma {:induction false} RunQuotes(s: string)
    ensures Run(START, s).inQuotes <==> Count(QUOTE, s) % 2 == 1
  {
    if s != [] {
      var s' := s[..|s| - 1];
      assert s == s' + [s[|s| - 1]];
      assert multiset(s) == multiset(s') + multiset([s[|s| - 1]]);
      RunQuotes(s');
    }
  }

  /** One field is closed per comma met outside quotes. */
  lemma {:induction false} RunCommas(s: string)
    ensures |Run(START, s).fields| == UnquotedCommas(s)
  {
    if s != [] {
      var s' := s[..|s| - 1];
      RunQuotes(s');
      RunCommas(s');
    }
  }

  /** The closed fields and the open one, joined with commas, are the text without
      its quotes. */
  lemma {:induction false} RunJoin(s: string)
    ensures Join(Run(START, s).fields + [Run(START, s).field]) == Unquoted(s)
  {
    if s != [] {
      var s' := s[..|s| - 1];
      var c := s[|s| - 1];
      RunJoin(s');
      var st := Run(START, s');
      if c == QUOTE {
      } else if c == COMMA && !st.inQuotes {
        JoinNewField(st.fields + [st.field]);
      } else {
        JoinExtendLast(st.fields, st.field, c);
      }
    }
  }

  lemma JoinNewField(fs: seq<string>)
    requires |fs| > 0
    ensures Join(fs + [[]]) == Join(fs) + [COMMA]
  {
    assert (fs + [[]])[..|fs|] == fs;
  }

  lemma JoinExtendLast(fields: seq<string>, field: string, c: char)
    ensures Join(fields + [field + [c]]) == Join(fields + [field]) + [c]
  {
    if |fields| > 0 {
      assert (fields + [field + [c]])[..|fields|] == fields;
      assert (fields + [field])[..|fields|] == fields;
    }
  }


  /** `parseCSVLine` returns at least one field: one more than the commas it meets
      outside quotes. Together the fields hold every non-quote character of the line
      in order, separated by those commas; no field holds a quote. */
  lemma ParsedFields(line: string)
    ensures |Parsed(line)| == 1 + UnquotedCommas(line)
    ensures Join(Parsed(line)) == Unquoted(line)
    ensures forall i :: 0 <= i < |Parsed(line)| ==> QUOTE !in Parsed(line)[i]
  {
    RunCommas(line);
    RunJoin(line);
    NoQuoteInFields(line);
  }

  lemma {:induction false} NoQuoteInFields(s: string)
    ensures forall i :: 0 <= i < |Run(START, s).fields| ==> QUOTE !in Run(START, s).fields[i]
    ensures QUOTE !in Run(START, s).field
  {
    if s != [] {
      NoQuoteInFields(s[..|s| - 1]);
    }
  }

  /** Inside quotes, an escaped field's body appends the field minus its quotes:
      each doubled quote toggles twice and the commas stay data. */
  lemma {:induction false} RunDoubled(st: Tokenizer, s: string)
    requires st.inQuotes
    ensures Run(st, Doubled(s)) == st.(field := st.field + Unquoted(s))
  {
    if s == [] {
      assert st.field + [] == st.field;
    } else {
      var s' := s[..|s| - 1];
      var c := s[|s| - 1];
      RunDoubled(st, s');
      RunConcat(st, Doubled(s'), Piece(c));
      var mid := st.(field := st.field + Unquoted(s'));
      if c == QUOTE {
        assert Piece(c)[..1] == [QUOTE];
        RunOne(mid, QUOTE);
      } else {
        RunOne(mid, c);
      }
    }
  }

  /** Outside quotes, a whole escaped field appends its quote-stripped text and
      leaves the scan outside quotes again. */
  lemma RunEscaped(st: Tokenizer, s: string)
    requires !st.inQuotes
    ensures Run(st, Escaped(s)) == st.(field := st.field + Unquoted(s))
  {
    var open := Run(st, [QUOTE]);
    RunOne(st, QUOTE);
    RunOne(Run(st, [QUOTE] + Doubled(s)), QUOTE);
    RunConcat(st, [QUOTE], Doubled(s));
    RunConcat(st, [QUOTE] + Doubled(s), [QUOTE]);
    RunDoubled(open, s);
  }

  /** Text with neither quote nor comma is appended to the current field as it is. */
  lemma {:induction false} RunPlain(st: Tokenizer, s: string)
    requires QUOTE !in s && COMMA !in s
    ensures Run(st, s) == st.(field := st.field + s)
  {
    if s == [] {
      assert st.field + [] == st.field;
    } else {
      var s' := s[..|s| - 1];
      assert QUOTE !in s' && COMMA !in s';
      RunPlain(st, s');
      assert st.field + s' + [s[|s| - 1]] == st.field + s;
    }
  }

  /** `parseCSVLine(escapeForCSV(s))` is the single field s with its quotes removed,
      even when s holds commas; so an embedded quote does not survive a reload. */
  lemma ParseEscaped(s: string)
    ensures Parsed(Escaped(s)) == [Unquoted(s)]
    ensures QUOTE !in s ==> Parsed(Escaped(s)) == [s]
  {
    RunEscaped(START, s);
    assert [] + Unquoted(s) == Unquoted(s);
    if QUOTE !in s {
      UnquotedNoQuote(s);
    }
  }

  /** A field holding one quote comes back without it. */
  lemma EmbeddedQuoteIsLost()
    ensures Escaped("a\"b") == "\"a\"\"b\""
    ensures Parsed(Escaped("a\"b")) == ["ab"]
  {
    assert "a\"b"[..2] == "a\"";
    assert "a\""[..1] == "a";
    assert "a"[..0] == [];
    assert Doubled("a\"b") == "a\"\"b";
    assert Unquoted("a\"b") == "ab";
    ParseEscaped("a\"b");
  }

  // ---------------------------------------------------------------------------
  // Decimal text of the amount, and std::stoi

  function DigitChar(d: int): char
    requires 0 <= d < 10
  {
    (d + '0' as int) as char
  }

  predicate IsDigit(c: char) {
    '0' <= c <= '9'
  }

  /** The digits `operator<<` writes for a non-negative int. */
  function NatDecimal(n: nat): (r: string)
    ensures |r| > 0 && forall i :: 0 <= i < |r| ==> IsDigit(r[i])
  {
    if n < 10 then [DigitChar(n)] else NatDecimal(n / 10) + [DigitChar(n % 10)]
  }

  /** `file << amount`: a minus sign for a negative amount, then its digits, unquoted. */
  function Decimal(n: int): string {
    if n < 0 then ['-'] + NatDecimal(-n) else NatDecimal(n)
  }

  /** The characters `isspace` accepts in the "C" locale. */
  predicate IsSpace(c: char) {
    c == ' ' || c == '\t' || c == '\n' || c == 11 as char || c == 12 as char || c == '\r'
  }

  function SkipSpaces(s: string): (r: string)
    ensures |r| <= |s| && r == s[|s| - |r|..]
    ensures s != [] && !IsSpace(s[0]) ==> r == s
  {
    if s != [] && IsSpace(s[0]) then SkipSpaces(s[1..]) else s
  }

  /** The maximal prefix of digits. */
  function LeadingDigits(s: string): (r: string)
    ensures |r| <= |s| && r == s[..|r|]
    ensures forall i :: 0 <= i < |r| ==> IsDigit(r[i])
    ensures |r| < |s| ==> !IsDigit(s[|r|])
  {
    if s != [] && IsDigit(s[0]) then [s[0]] + LeadingDigits(s[1..]) else []
  }

  function DigitValue(c: char): nat
    requires IsDigit(c)
  {
    c as int - '0' as int
  }

  function DigitsValue(ds: string): nat
    requires forall i :: 0 <= i < |ds| ==> IsDigit(ds[i])
  {
    if ds == [] then 0 else DigitsValue(ds[..|ds| - 1]) * 10 + DigitValue(ds[|ds| - 1])
  }

  /** The value `std::stoi` reads from a field: optional white space, an optional
      sign, then at least one digit (the longest run of digits is taken and the rest
      is ignored). None is the `invalid_argument` case. The value is not yet checked
      against the range of an int. */
  function Stoi(s: string): (r: Option<int>)
    ensures s != [] && IsDigit(s[0]) ==> r.Some? && r.value >= 0
    ensures s == [] || (!IsSpace(s[0]) && !IsDigit(s[0]) && s[0] != '-' && s[0] != '+') ==> r.None?
    ensures r.Some? && r.value < 0 ==> '-' in s
  {
    var t := SkipSpaces(s);
    if t != [] && t[0] == '-' then
      var magnitude := ReadDigits(t[1..]);
      if magnitude.None? then None else Some(-(magnitude.value as int))
    else if t != [] && t[0] == '+' then
      var magnitude := ReadDigits(t[1..]);
      if magnitude.None? then None else Some(magnitude.value as int)
    else
      var magnitude := ReadDigits(t);
      if magnitude.None? then None else Some(magnitude.value as int)
  }

  /** The value of the digits after the optional sign: None when there are none. */
  function ReadDigits(u: string): (r: Option<nat>)
    ensures r.None? <==> u == [] || !IsDigit(u[0])
  {
    var digits := LeadingDigits(u);
    if digits == [] then None else Some(DigitsValue(digits))
  }

  lemma {:induction false} DigitsAreLeading(s: string)
    requires forall i :: 0 <= i < |s| ==> IsDigit(s[i])
    ensures LeadingDigits(s) == s
  {
    if s != [] {
      DigitsAreLeading(s[1..]);
    }
  }

  lemma {:induction false} NatDecimalValue(n: nat)
    ensures DigitsValue(NatDecimal(n)) == n
  {
    if n >= 10 {
      var d := NatDecimal(n);
      assert d[..|d| - 1] == NatDecimal(n / 10);
      NatDecimalValue(n / 10);
    }
  }

  /** `stoi` reads back exactly the amount that `operator<<` wrote. */
  lemma StoiDecimal(n: int)
    ensures Stoi(Decimal(n)) == Some(n)
  {
    var m: nat := if n < 0 then -n else n;
    var ds := NatDecimal(m);
    NatDecimalValue(m);
    ReadAllDigits(ds);
    if n < 0 {
      StoiNegative(ds, m);
    } else {
      StoiUnsigned(ds, m);
    }
  }

  lemma StoiUnsigned(ds: string, v: nat)
    requires ds != [] && IsDigit(ds[0]) && ReadDigits(ds) == Some(v)
    ensures Stoi(ds) == Some(v)
  {
    assert SkipSpaces(ds) == ds;
  }

  lemma StoiNegative(ds: string, v: nat)
    requires ReadDigits(ds) == Some(v)
    ensures Stoi(['-'] + ds) == Some(-(v as int))
  {
    var d := ['-'] + ds;
    assert d[0] == '-' && d[1..] == ds;
    assert SkipSpaces(d) == d;
    assert ReadDigits(d[1..]) == Some(v);
  }

  lemma ReadAllDigits(ds: string)
    requires ds != [] && forall i :: 0 <= i < |ds| ==> IsDigit(ds[i])
    ensures ReadDigits(ds) == Some(DigitsValue(ds))
  {
    DigitsAreLeading(ds);
  }

  lemma DecimalIsPlain(n: int)
    ensures QUOTE !in Decimal(n) && COMMA !in Decimal(n) && NEWLINE !in Decimal(n)
  {
    var m: nat := if n < 0 then -n else n;
    assert forall i :: 0 <= i < |NatDecimal(m)| ==> IsDigit(NatDecimal(m)[i]);
  }

  // ---------------------------------------------------------------------------
  // saveItemsToFile

  /** One record as `saveItemsToFile` writes it, without the line terminator. */
  function RecordLine(item: ItemState, separator: char): string {
    Escaped(item.name) + [separator] + Escaped(item.description) + [separator]
    + Decimal(item.amount) + [separator] + Escaped(item.imagePath)
  }

  /** The whole file: each record followed by a newline, in order. */
  function SavedText(items: seq<ItemState>, separator: char): string {
    if items == [] then []
    else SavedText(items[..|items| - 1], separator) + RecordLine(items[|items| - 1], separator) + [NEWLINE]
  }

  lemma SavedTextStep(items: seq<ItemState>, i: nat, separator: char)
    requires i < |items|
    ensures SavedText(items[..i + 1], separator)
         == SavedText(items[..i], separator) + RecordLine(items[i], separator) + [NEWLINE]
  {
    assert items[..i + 1][..i] == items[..i];
  }

  /** The text written to the file (opening it and creating the `save` directory are
      not modelled). */
  method SaveItemsToFile(items: seq<Item>, separator: char) returns (text: string)
    ensures text == SavedText(States(items), separator)
  {
    var all := States(items);
    text := [];
    var i := 0;
    while i < |all|
      invariant 0 <= i <= |all|
      invariant text == SavedText(all[..i], separator)
    {
      var item := all[i];
      var name := EscapeForCSV(item.name);
      var description := EscapeForCSV(item.description);
      var image := EscapeForCSV(item.imagePath);
      var line := name + [separator] + description + [separator] + Decimal(item.amount) + [separator] + image;
      SavedTextStep(all, i, separator);
      text := text + line + [NEWLINE];
      i := i + 1;
    }
    assert all[..i] == all;
  }

  // ---------------------------------------------------------------------------
  // getline

  function IndexOf(s: string, c: char): (k: nat)
    requires c in s
    ensures k < |s| && s[k] == c && c !in s[..k]
  {
    if s[0] == c then 0 else 1 + IndexOf(s[1..], c)
  }

  /** The lines `getline` reads from a file holding text: split at each newline; a
      final newline does not start another line. */
  function Lines(text: string): (r: seq<string>)
    ensures text != [] && NEWLINE !in text ==> r == [text]
    ensures text == [] ==> r == []
    decreases |text|
  {
    if text == [] then []
    else if NEWLINE !in text then [text]
    else
      var k := IndexOf(text, NEWLINE);
      [text[..k]] + Lines(text[k + 1..])
  }

  /** No line `getline` returns holds a newline. */
  lemma {:induction false} LinesHaveNoNewline(text: string)
    ensures forall i :: 0 <= i < |Lines(text)| ==> NEWLINE !in Lines(text)[i]
    decreases |text|
  {
    if text != [] && NEWLINE in text {
      var k := IndexOf(text, NEWLINE);
      LinesHaveNoNewline(text[k + 1..]);
    }
  }

  lemma LinesUnfold(text: string)
    requires NEWLINE in text
    ensures Lines(text) == [text[..IndexOf(text, NEWLINE)]] + Lines(text[IndexOf(text, NEWLINE) + 1..])
  {
  }

  lemma {:induction false} LinesConcat(a: string, b: string)
    requires a == [] || a[|a| - 1] == NEWLINE
    ensures Lines(a + b) == Lines(a) + Lines(b)
    decreases |a|
  {
    if a == [] {
      assert a + b == b;
    } else {
      assert NEWLINE in a by {
        assert a[|a| - 1] in a;
      }
      var k := IndexOf(a, NEWLINE);
      var rest := a[k + 1..];
      assert rest == [] || rest[|rest| - 1] == NEWLINE;
      LinesConcatStep(a, b, k);
      LinesConcat(rest, b);
    }
  }

  lemma LinesConcatStep(a: string, b: string, k: nat)
    requires NEWLINE in a && k == IndexOf(a, NEWLINE)
    ensures Lines(a) == [a[..k]] + Lines(a[k + 1..])
    ensures Lines(a + b) == [a[..k]] + Lines(a[k + 1..] + b)
  {
    LinesUnfold(a);
    ConcatSlices(a, b, k);
    IndexOfPrefix(a, b, NEWLINE);
    LinesUnfold(a + b);
  }

  lemma ConcatSlices(a: string, b: string, k: nat)
    requires k < |a|
    ensures (a + b)[k] == a[k] && (a + b)[..k] == a[..k] && (a + b)[k + 1..] == a[k + 1..] + b
  {
  }


  lemma {:induction false} IndexOfPrefix(a: string, b: string, c: char)
    requires c in a
    ensures IndexOf(a + b, c) == IndexOf(a, c)
  {
    if a[0] != c {
      assert (a + b)[1..] == a[1..] + b;
      IndexOfPrefix(a[1..], b, c);
    }
  }

  lemma LinesOfOneLine(line: string)
    requires NEWLINE !in line
    ensures Lines(line + [NEWLINE]) == [line]
  {
    var t := line + [NEWLINE];
    assert t[|line|] == NEWLINE;
    assert forall i :: 0 <= i < |line| ==> t[i] == line[i];
    assert t[..|line|] == line;
    assert t[|line| + 1..] == [];
  }

  /** No field of the item holds a newline, so its record stays on one line. */
  predicate OneLine(item: ItemState) {
    NEWLINE !in item.name && NEWLINE !in item.description && NEWLINE !in item.imagePath
  }

  lemma RecordLineHasNoNewline(item: ItemState, separator: char)
    requires OneLine(item) && separator != NEWLINE
    ensures NEWLINE !in RecordLine(item, separator)
  {
    DecimalIsPlain(item.amount);
    NoNewlineEscaped(item.name);
    NoNewlineEscaped(item.description);
    NoNewlineEscaped(item.imagePath);
  }

  lemma {:induction false} NoNewlineEscaped(s: string)
    requires NEWLINE !in s
    ensures NEWLINE !in Escaped(s)
  {
    NoNewlineDoubled(s);
  }

  lemma {:induction false} NoNewlineDoubled(s: string)
    requires NEWLINE !in s
    ensures NEWLINE !in Doubled(s)
  {
    if s != [] {
      assert NEWLINE !in s[..|s| - 1];
      NoNewlineDoubled(s[..|s| - 1]);
    }
  }

  /** The record lines of the items, in order. */
  function RecordLines(items: seq<ItemState>, separator: char): seq<string> {
    if items == [] then []
    else RecordLines(items[..|items| - 1], separator) + [RecordLine(items[|items| - 1], separator)]
  }

  /** The file read back line by line gives one record line per item, in order,
      provided no field holds a newline. */
  lemma {:induction false} LinesOfSavedText(items: seq<ItemState>, separator: char)
    requires separator != NEWLINE
    requires forall i :: 0 <= i < |items| ==> OneLine(items[i])
    ensures Lines(SavedText(items, separator)) == RecordLines(items, separator)
  {
    if items != [] {
      var items' := items[..|items| - 1];
      var last := items[|items| - 1];
      var prefix := SavedText(items', separator);
      var line := RecordLine(last, separator);
      LinesOfSavedText(items', separator);
      RecordLineHasNoNewline(last, separator);
      SavedTextEndsInNewline(items', separator);
      assert SavedText(items, separator) == prefix + (line + [NEWLINE]);
      LinesAppendLine(prefix, line);
    }
  }

  /** Appending one terminated line to whole lines adds that line. */
  lemma LinesAppendLine(prefix: string, line: string)
    requires prefix == [] || prefix[|prefix| - 1] == NEWLINE
    requires NEWLINE !in line
    ensures Lines(prefix + (line + [NEWLINE])) == Lines(prefix) + [line]
  {
    LinesConcat(prefix, line + [NEWLINE]);
    LinesOfOneLine(line);
  }

  lemma SavedTextEndsInNewline(items: seq<ItemState>, separator: char)
    ensures var t := SavedText(items, separator); t == [] || t[|t| - 1] == NEWLINE
  {
  }

  // ---------------------------------------------------------------------------
  // loadItemsFromFile, one line at a time

  /** What the loader does with one line. */
  datatype LineOutcome =
    | Loaded(item: ItemState)  // four fields and a number: appended
    | WrongFieldCount          // "Skipping invalid line"
    | InvalidNumber            // stoi threw invalid_argument: "Invalid number format"
    | OutOfRange               // stoi threw out_of_range, which nothing catches

  function ClassifyLine(line: string): (r: LineOutcome)
    ensures r.WrongFieldCount? <==> |Parsed(line)| != 4
    ensures r.InvalidNumber? <==> |Parsed(line)| == 4 && Stoi(Parsed(line)[2]).None?
  {
    var fields := Parsed(line);
    if |fields| != 4 then WrongFieldCount
    else match Stoi(fields[2])
      case None => InvalidNumber
      case Some(v) =>
        if INT_MIN <= v <= INT_MAX then Loaded(ItemState(Lowered(fields[0]), fields[1], v, fields[3]))
        else OutOfRange
  }

  /** A line loads exactly when it has four fields and a number in the range of an
      int; the item is built from the fields as the constructor does. */
  lemma ClassifyLineLoads(line: string)
    ensures ClassifyLine(line).Loaded? <==>
      |Parsed(line)| == 4 && Stoi(Parsed(line)[2]).Some?
      && INT_MIN <= Stoi(Parsed(line)[2]).value <= INT_MAX
    ensures ClassifyLine(line).Loaded? ==>
      var fields := Parsed(line);
      ClassifyLine(line).item
        == ItemState(Lowered(fields[0]), fields[1], Stoi(fields[2]).value, fields[3])
  {
  }

  /** No line makes `stoi` throw `out_of_range`, which would end the program. */
  predicate NoOutOfRange(lines: seq<string>) {
    forall i :: 0 <= i < |lines| ==> !ClassifyLine(lines[i]).OutOfRange?
  }

  /** The items the loader appends for these lines, in file order. */
  function LoadedItems(lines: seq<string>): seq<ItemState> {
    if lines == [] then []
    else
      var outcome := ClassifyLine(lines[|lines| - 1]);
      LoadedItems(lines[..|lines| - 1]) + (if outcome.Loaded? then [outcome.item] else [])
  }

  /** Loading only appends: the items already there stay as they are, and one item is
      appended per accepted line, in file order. A file that cannot be opened (None)
      changes nothing. */
  method LoadItemsFromFile(items: Inventory, file: Option<seq<string>>)
    requires items.Valid()
    requires file.Some? ==> NoOutOfRange(file.value)
    modifies items
    ensures items.Valid()
    ensures file.None? ==> items.Contents() == old(items.Contents())
    ensures file.Some? ==> items.Contents() == old(items.Contents()) + LoadedItems(file.value)
  {
    if file.None? {
      return;
    }
    var lines := file.value;
    var i := 0;
    while i < |lines|
      invariant 0 <= i <= |lines|
      invariant items.Valid()
      invariant items.Contents() == old(items.Contents()) + LoadedItems(lines[..i])
    {
      LoadedItemsStep(lines, i);
      LoadLine(items, lines[i]);
      i := i + 1;
    }
    assert lines[..i] == lines;
  }

  /** The body of the loading loop for one line: four fields and a number append an
      item; any other line is skipped. */
  method LoadLine(items: Inventory, line: string)
    requires items.Valid()
    requires !ClassifyLine(line).OutOfRange?
    modifies items
    ensures items.Valid()
    ensures items.Contents() == old(items.Contents())
      + (if ClassifyLine(line).Loaded? then [ClassifyLine(line).item] else [])
  {
    var fields := ParseCSVLine(line);
    if |fields| == 4 {
      var amount := Stoi(fields[2]);
      if amount.Some? {
        ClassifyLineLoads(line);
        items.EmplaceBack(fields[0], fields[1], amount.value, fields[3]);
      }
    }
  }

  /** Loading one more line appends what that line loads. */
  lemma LoadedItemsStep(lines: seq<string>, i: nat)
    requires i < |lines|
    ensures LoadedItems(lines[..i + 1]) == LoadedItems(lines[..i])
      + (if ClassifyLine(lines[i]).Loaded? then [ClassifyLine(lines[i]).item] else [])
  {
    assert lines[..i + 1][..i] == lines[..i];
  }

  /** Loading a concatenation of files is loading one then the other. */
  lemma {:induction false} LoadedItemsConcat(a: seq<string>, b: seq<string>)
    ensures LoadedItems(a + b) == LoadedItems(a) + LoadedItems(b)
    decreases |b|
  {
    if b == [] {
      assert a + b == a;
    } else {
      assert (a + b)[..|a + b| - 1] == a + b[..|b| - 1];
      LoadedItemsConcat(a, b[..|b| - 1]);
    }
  }

  /** A line is skipped unless it splits into exactly four fields whose third begins
      with a number. */
  lemma {:induction false} LoadedItemsBound(lines: seq<string>)
    ensures |LoadedItems(lines)| <= |lines|
    ensures (forall i :: 0 <= i < |lines| ==> |Parsed(lines[i])| != 4) ==> LoadedItems(lines) == []
  {
    if lines != [] {
      LoadedItemsBound(lines[..|lines| - 1]);
    }
  }

  // ---------------------------------------------------------------------------
  // Save and load together

  /** What an item becomes after a save with the comma and a load: quotes are lost from
      its text fields, and the name is lower-cased again. */
  function Reloaded(item: ItemState): ItemState {
    ItemState(Lowered(Unquoted(item.name)), Unquoted(item.description), item.amount, Unquoted(item.imagePath))
  }

  function ReloadedAll(items: seq<ItemState>): seq<ItemState> {
    if items == [] then [] else ReloadedAll(items[..|items| - 1]) + [Reloaded(items[|items| - 1])]
  }

  /** One more character after a prefix of the line. */
  lemma RunThenChar(prefix: string, c: char)
    ensures Run(START, prefix + [c]) == Step(Run(START, prefix), c)
  {
    RunConcat(START, prefix, [c]);
    RunOne(Run(START, prefix), c);
  }

  /** An escaped field after a prefix that ends outside quotes. */
  lemma RunThenEscaped(prefix: string, s: string)
    requires !Run(START, prefix).inQuotes
    ensures Run(START, prefix + Escaped(s))
         == Run(START, prefix).(field := Run(START, prefix).field + Unquoted(s))
  {
    RunConcat(START, prefix, Escaped(s));
    RunEscaped(Run(START, prefix), s);
  }

  /** Text without quotes or commas after a prefix of the line. */
  lemma RunThenPlain(prefix: string, s: string)
    requires QUOTE !in s && COMMA !in s
    ensures Run(START, prefix + s) == Run(START, prefix).(field := Run(START, prefix).field + s)
  {
    RunConcat(START, prefix, s);
    RunPlain(Run(START, prefix), s);
  }

  /** A record line written with the comma splits into the four quote-stripped fields,
      the amount in decimal third. */
  lemma ParseRecordLineComma(item: ItemState)
    ensures Parsed(RecordLine(item, COMMA))
         == [Unquoted(item.name), Unquoted(item.description), Decimal(item.amount), Unquoted(item.imagePath)]
  {
    var un, ud, a, um := Unquoted(item.name), Unquoted(item.description), Decimal(item.amount), Unquoted(item.imagePath);
    ParseRecordTail(item);
    assert [un, ud, a] + [um] == [un, ud, a, um];
  }

  /** The amount and the image path of a comma-separated record, after its head. */
  lemma ParseRecordTail(item: ItemState)
    ensures Run(START, RecordLine(item, COMMA))
         == Tokenizer([Unquoted(item.name), Unquoted(item.description), Decimal(item.amount)],
                      Unquoted(item.imagePath), false)
  {
    var un, ud, a, um := Unquoted(item.name), Unquoted(item.description), Decimal(item.amount), Unquoted(item.imagePath);
    var l4 := Escaped(item.name) + [COMMA] + Escaped(item.description) + [COMMA];
    var l5 := l4 + a;
    var l6 := l5 + [COMMA];
    var l7 := l6 + Escaped(item.imagePath);
    assert l7 == RecordLine(item, COMMA);
    assert Run(START, l4) == Tokenizer([un, ud], [], false) by {
      ParseRecordHead(item);
    }
    assert Run(START, l5) == Tokenizer([un, ud], a, false) by {
      DecimalIsPlain(item.amount);
      RunThenPlain(l4, a);
      assert [] + a == a;
    }
    assert Run(START, l6) == Tokenizer([un, ud, a], [], false) by {
      RunThenChar(l5, COMMA);
      assert [un, ud] + [a] == [un, ud, a];
    }
    RunThenEscaped(l6, item.imagePath);
    assert [] + um == um;
  }


  /** The name and the description of a comma-separated record, each closed by its
      comma. */
  lemma ParseRecordHead(item: ItemState)
    ensures Run(START, Escaped(item.name) + [COMMA] + Escaped(item.description) + [COMMA])
         == Tokenizer([Unquoted(item.name), Unquoted(item.description)], [], false)
  {
    var un, ud := Unquoted(item.name), Unquoted(item.description);
    var l1 := Escaped(item.name);
    var l2 := l1 + [COMMA];
    var l3 := l2 + Escaped(item.description);
    RunEscaped(START, item.name);
    assert [] + un == un;
    assert Run(START, l1) == Tokenizer([], un, false);
    RunThenChar(l1, COMMA);
    assert Run(START, l2) == Tokenizer([un], [], false);
    RunThenEscaped(l2, item.description);
    assert [] + ud == ud;
    assert Run(START, l3) == Tokenizer([un], ud, false);
    RunThenChar(l3, COMMA);
  }


  /** A record line written with any other separator (not the comma, not a quote)
      is one field, so the loader skips it. */
  lemma ParseRecordLineOther(item: ItemState, separator: char)
    requires separator != COMMA && separator != QUOTE
    ensures Parsed(RecordLine(item, separator))
         == [Unquoted(item.name) + [separator] + Unquoted(item.description) + [separator]
             + Decimal(item.amount) + [separator] + Unquoted(item.imagePath)]
    ensures ClassifyLine(RecordLine(item, separator)) == WrongFieldCount
  {
    var sep := separator;
    var un, ud, a, um := Unquoted(item.name), Unquoted(item.description), Decimal(item.amount), Unquoted(item.imagePath);
    DecimalIsPlain(item.amount);
    var l1 := Escaped(item.name);
    var l2 := l1 + [sep];
    var l3 := l2 + Escaped(item.description);
    var l4 := l3 + [sep];
    var l5 := l4 + a;
    var l6 := l5 + [sep];
    var l7 := l6 + Escaped(item.imagePath);
    assert l7 == RecordLine(item, sep);
    var f1 := un;
    var f2 := f1 + [sep];
    var f3 := f2 + ud;
    var f4 := f3 + [sep];
    var f5 := f4 + a;
    var f6 := f5 + [sep];
    var f7 := f6 + um;
    RunEscaped(START, item.name);
    assert [] + un == un;
    assert Run(START, l1) == Tokenizer([], f1, false);
    RunThenChar(l1, sep);
    assert Run(START, l2) == Tokenizer([], f2, false);
    RunThenEscaped(l2, item.description);
    assert Run(START, l3) == Tokenizer([], f3, false);
    RunThenChar(l3, sep);
    assert Run(START, l4) == Tokenizer([], f4, false);
    RunThenPlain(l4, a);
    assert Run(START, l5) == Tokenizer([], f5, false);
    RunThenChar(l5, sep);
    assert Run(START, l6) == Tokenizer([], f6, false);
    RunThenEscaped(l6, item.imagePath);
    assert Run(START, l7) == Tokenizer([], f7, false);
    assert f7 == un + [sep] + ud + [sep] + a + [sep] + um;
  }

  /** Saving with the comma and loading again gives every item back, in order,
      except that quotes are lost from its text fields and the name is lower-cased
      (no field may hold a newline, which would split the record). */
  lemma {:induction false} SaveThenLoad(items: seq<ItemState>)
    requires forall i :: 0 <= i < |items| ==> OneLine(items[i])
    ensures NoOutOfRange(Lines(SavedText(items, COMMA)))
    ensures LoadedItems(Lines(SavedText(items, COMMA))) == ReloadedAll(items)
  {
    LinesOfSavedText(items, COMMA);
    LoadRecordLines(items);
  }

  lemma {:induction false} LoadRecordLines(items: seq<ItemState>)
    ensures NoOutOfRange(RecordLines(items, COMMA))
    ensures LoadedItems(RecordLines(items, COMMA)) == ReloadedAll(items)
  {
    if items != [] {
      var items' := items[..|items| - 1];
      var last := items[|items| - 1];
      var lines := RecordLines(items, COMMA);
      LoadRecordLines(items');
      ClassifyRecordLine(last);
      assert lines[..|lines| - 1] == RecordLines(items', COMMA);
    }
  }

  lemma ClassifyRecordLine(item: ItemState)
    ensures ClassifyLine(RecordLine(item, COMMA)) == Loaded(Reloaded(item))
  {
    ParseRecordLineComma(item);
    StoiDecimal(item.amount);
  }

  /** No field of the item holds a quote. */
  predicate QuoteFree(item: ItemState) {
    QUOTE !in item.name && QUOTE !in item.description && QUOTE !in item.imagePath
  }

  /** Items that hold no quote and whose names are lower-cased survive a save with
      the comma and a load exactly. */
  lemma SaveThenLoadExact(items: seq<ItemState>)
    requires forall i :: 0 <= i < |items| ==> OneLine(items[i])
    requires NamesLowercase(items)
    requires forall i :: 0 <= i < |items| ==> QuoteFree(items[i])
    ensures LoadedItems(Lines(SavedText(items, COMMA))) == items
  {
    SaveThenLoad(items);
    ReloadedUnchanged(items);
  }

  lemma ReloadedUnchanged(items: seq<ItemState>)
    requires NamesLowercase(items)
    requires forall i :: 0 <= i < |items| ==> QuoteFree(items[i])
    ensures ReloadedAll(items) == items
  {
    ReloadedAllAt(items);
    forall i | 0 <= i < |items|
      ensures ReloadedAll(items)[i] == items[i]
    {
      ReloadedItemUnchanged(items[i]);
    }
  }

  /** Reloading works item by item. */
  lemma {:induction false} ReloadedAllAt(items: seq<ItemState>)
    ensures |ReloadedAll(items)| == |items|
    ensures forall i :: 0 <= i < |items| ==> ReloadedAll(items)[i] == Reloaded(items[i])
  {
    if items != [] {
      ReloadedAllAt(items[..|items| - 1]);
    }
  }


  lemma ReloadedItemUnchanged(item: ItemState)
    requires IsLowercase(item.name)
    requires QuoteFree(item)
    ensures Reloaded(item) == item
  {
    UnquotedNoQuote(item.name);
    UnquotedNoQuote(item.description);
    UnquotedNoQuote(item.imagePath);
    LowercaseIsFixedPoint(item.name);
  }

  /** A file written with another separator (not the comma, a quote or a newline) loads
      no item at all: every line is one field. */
  lemma {:induction false} OtherSeparatorLoadsNothing(items: seq<ItemState>, separator: char)
    requires separator != COMMA && separator != QUOTE && separator != NEWLINE
    requires forall i :: 0 <= i < |items| ==> OneLine(items[i])
    ensures NoOutOfRange(Lines(SavedText(items, separator)))
    ensures LoadedItems(Lines(SavedText(items, separator))) == []
  {
    LinesOfSavedText(items, separator);
    SkipRecordLines(items, separator);
  }

  lemma {:induction false} SkipRecordLines(items: seq<ItemState>, separator: char)
    requires separator != COMMA && separator != QUOTE
    ensures NoOutOfRange(RecordLines(items, separator))
    ensures LoadedItems(RecordLines(items, separator)) == []
  {
    if items != [] {
      var lines := RecordLines(items, separator);
      SkipRecordLines(items[..|items| - 1], separator);
      ParseRecordLineOther(items[|items| - 1], separator);
      assert lines[..|lines| - 1] == RecordLines(items[..|items| - 1], separator);
    }
  }
}
