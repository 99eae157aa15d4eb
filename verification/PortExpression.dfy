/**
 * Translation of a port expression into a port list and "from:to" ranges, and the reading of those ranges by a rule.
 */
module PortExpression {
  import opened Common

  const MAX_PORT := 65535

  /** All ports from `lo` to `hi`. */
  datatype Span = Span(lo: nat, hi: nat)

  predicate InSpan(span: Span, port: nat) {
    span.lo <= port <= span.hi
  }

  // ---- strings ----------------------------------------------------------------------------------

  /** The pieces between separators; one piece when there is none. */
  function Split(s: string, sep: char): (r: seq<string>)
    ensures r != []
  {
    if s == "" then [""]
    else if s[0] == sep then [""] + Split(s[1..], sep)
    else var rest := Split(s[1..], sep); [[s[0]] + rest[0]] + rest[1..]
  }

  function Join(pieces: seq<string>, sep: char): string {
    if |pieces| == 0 then "" else if |pieces| == 1 then pieces[0] else pieces[0] + [sep] + Join(pieces[1..], sep)
  }

  /** The pieces hold no separator, and put together again they give the string. */
  lemma {:induction false} SplitIsExact(s: string, sep: char)
    ensures Join(Split(s, sep), sep) == s
    ensures forall i :: 0 <= i < |Split(s, sep)| ==> sep !in Split(s, sep)[i]
  {
    if s != "" {
      SplitIsExact(s[1..], sep);
      var rest := Split(s[1..], sep);
      if s[0] == sep {
        JoinMore("", rest, sep);
        assert s == [sep] + s[1..];
      } else {
        JoinLonger(s[0], rest, sep);
        assert s == [s[0]] + s[1..];
      }
    }
  }

  lemma JoinMore(piece: string, rest: seq<string>, sep: char)
    requires rest != []
    ensures Join([piece] + rest, sep) == piece + [sep] + Join(rest, sep)
  {
    assert ([piece] + rest)[1..] == rest;
  }

  lemma JoinLonger(c: char, rest: seq<string>, sep: char)
    requires rest != []
    ensures Join([[c] + rest[0]] + rest[1..], sep) == [c] + Join(rest, sep)
  {
    var longer := [[c] + rest[0]] + rest[1..];
    assert longer[1..] == rest[1..];
  }

  /** There is only one way to cut a string into pieces. */
  lemma {:induction false} SplitUnique(pieces: seq<string>, sep: char)
    requires pieces != [] && forall i :: 0 <= i < |pieces| ==> sep !in pieces[i]
    ensures Split(Join(pieces, sep), sep) == pieces
    decreases |Join(pieces, sep)|, |pieces|
  {
    var s := Join(pieces, sep);
    if pieces[0] != "" {
      var rest := [pieces[0][1..]] + pieces[1..];
      assert s[1..] == Join(rest, sep) by {
        assert |pieces| > 1 ==> rest[1..] == pieces[1..];
      }
      SplitUnique(rest, sep);
      assert s[0] == pieces[0][0] && [s[0]] + rest[0] == pieces[0] && rest[1..] == pieces[1..];
      assert pieces == [pieces[0]] + pieces[1..];
    } else if |pieces| > 1 {
      assert s[0] == sep && s[1..] == Join(pieces[1..], sep);
      SplitUnique(pieces[1..], sep);
      assert [""] + pieces[1..] == pieces;
    }
  }

  /** White space as Unicode defines it. */
  predicate IsSpace(c: char) {
    || '\t' <= c <= '\r' || c == ' ' || c == '\U{85}' || c == '\U{A0}' || c == '\U{1680}'
    || '\U{2000}' <= c <= '\U{200A}' || c == '\U{2028}' || c == '\U{2029}' || c == '\U{202F}' || c == '\U{205F}'
      || c == '\U{3000}'
  }

  /** All of it: the code points with that property. */
  const WHITE_SPACE: set<int> := {
    0x9, 0xA, 0xB, 0xC, 0xD, 0x20, 0x85, 0xA0, 0x1680, 0x2000, 0x2001, 0x2002, 0x2003, 0x2004, 0x2005, 0x2006, 0x2007,
    0x2008, 0x2009, 0x200A, 0x2028, 0x2029, 0x202F, 0x205F, 0x3000}

  lemma SpaceTable(c: char)
    ensures IsSpace(c) <==> c as int in WHITE_SPACE
  {
  }

  function TrimSpace(s: string): (r: string)
    ensures r != "" ==> !IsSpace(r[0]) && !IsSpace(r[|r| - 1])
    ensures |r| <= |s|
    decreases |s|
  {
    if s == "" then ""
    else if IsSpace(s[0]) then TrimSpace(s[1..])
    else if IsSpace(s[|s| - 1]) then TrimSpace(s[..|s| - 1])
    else s
  }

  predicate Spaces(s: string) {
    forall i :: 0 <= i < |s| ==> IsSpace(s[i])
  }

  /** Nothing but white space is cut off. */
  lemma {:induction false} TrimExact(s: string) returns (left: string, right: string)
    ensures s == left + TrimSpace(s) + right && Spaces(left) && Spaces(right)
    decreases |s|
  {
    hide IsSpace;
    left, right := "", "";
    if s != "" && IsSpace(s[0]) {
      var more, end := TrimExact(s[1..]);
      LongerLeft(s, more, TrimSpace(s), end);
      left, right := [s[0]] + more, end;
    } else if s != "" && IsSpace(s[|s| - 1]) {
      var start, more := TrimExact(s[..|s| - 1]);
      LongerRight(s, start, TrimSpace(s), more);
      left, right := start, more + [s[|s| - 1]];
    }
  }

  lemma LongerLeft(s: string, left: string, text: string, right: string)
    requires s != "" && s[1..] == left + text + right && Spaces(left) && IsSpace(s[0])
    ensures s == ([s[0]] + left) + text + right && Spaces([s[0]] + left)
  {
    hide IsSpace;
    assert s == [s[0]] + s[1..];
  }

  lemma LongerRight(s: string, left: string, text: string, right: string)
    requires s != "" && s[..|s| - 1] == left + text + right && Spaces(right) && IsSpace(s[|s| - 1])
    ensures s == left + text + (right + [s[|s| - 1]]) && Spaces(right + [s[|s| - 1]])
  {
    hide IsSpace;
    assert s == s[..|s| - 1] + [s[|s| - 1]];
  }

  /** And all of it at both ends. */
  lemma {:induction false} TrimPadded(left: string, text: string, right: string)
    requires Spaces(left) && Spaces(right)
    requires text != "" ==> !IsSpace(text[0]) && !IsSpace(text[|text| - 1])
    ensures TrimSpace(left + text + right) == text
    decreases |left| + |right|
  {
    var s := left + text + right;
    if left != "" {
      assert s[1..] == left[1..] + text + right;
      TrimPadded(left[1..], text, right);
    } else if right != "" {
      var shorter := right[..|right| - 1];
      assert s[..|s| - 1] == left + text + shorter && s[|s| - 1] == right[|right| - 1];
      TrimPadded(left, text, shorter);
      if text == "" {
        TrimBlank(s);
      }
    } else {
      assert s == text;
    }
  }

  lemma {:induction false} TrimBlank(s: string)
    ensures TrimSpace(s) == "" <==> Spaces(s)
    decreases |s|
  {
    if Spaces(s) && s != "" {
      TrimBlank(s[1..]);
    } else if TrimSpace(s) == "" {
      var left, right := TrimExact(s);
    }
  }

  // ---- decimal numbers --------------------------------------------------------------------------

  predicate Digits(s: string) {
    forall i :: 0 <= i < |s| ==> '0' <= s[i] <= '9'
  }

  function Number(s: string): nat
    requires Digits(s)
  {
    if s == "" then 0 else 10 * Number(s[..|s| - 1]) + (s[|s| - 1] as int - '0' as int)
  }

  /** A 16-bit decimal number: digits only, at least one. */
  function ParsePort(s: string): Option<nat> {
    if s == "" || !Digits(s) || Number(s) > MAX_PORT then None else Some(Number(s))
  }

  function Digit(n: nat): char
    requires n < 10
  {
    ('0' as int + n) as char
  }

  function Format(n: nat): (s: string)
    ensures s != "" && Digits(s)
  {
    if n < 10 then [Digit(n)] else Format(n / 10) + [Digit(n % 10)]
  }

  lemma {:induction false} FormatReads(n: nat)
    ensures Number(Format(n)) == n
  {
    if n >= 10 {
      FormatReads(n / 10);
      assert Format(n)[..|Format(n)| - 1] == Format(n / 10);
    }
  }

  /** Numbers are decimal, and leading zeros do not count. */
  lemma {:induction false} NumberReads(s: string)
    requires Digits(s)
    ensures Number("0" + s) == Number(s)
    ensures s != "" ==> exists zeros :: s == zeros + Format(Number(s)) && forall i :: 0 <= i < |zeros| ==>
      zeros[i] == '0'
  {
    if s != "" {
      var front := s[..|s| - 1];
      NumberReads(front);
      assert ("0" + s)[..|s|] == "0" + front;
      var zeros := LeadingZeros(s);
    }
  }

  /** Each digit counts its place: to the left of another, ten times as much. */
  lemma NumberAppends(s: string, d: nat)
    requires Digits(s) && d < 10
    ensures Digits(s + [Digit(d)]) && Number(s + [Digit(d)]) == 10 * Number(s) + d
    ensures Number("") == 0
  {
    assert (s + [Digit(d)])[..|s|] == s;
  }

  lemma FormatAppends(n: nat, d: nat)
    requires d < 10
    ensures Format(10 * n + d) == if n == 0 then [Digit(d)] else Format(n) + [Digit(d)]
  {
    assert (10 * n + d) / 10 == n && (10 * n + d) % 10 == d;
  }

  lemma {:induction false} LeadingZeros(s: string) returns (zeros: string)
    requires Digits(s) && s != ""
    ensures s == zeros + Format(Number(s)) && forall i :: 0 <= i < |zeros| ==> zeros[i] == '0'
  {
    hide Format, Number;
    var front, d := s[..|s| - 1], s[|s| - 1] as int - '0' as int;
    assert s == front + [Digit(d)];
    NumberAppends(front, d);
    FormatAppends(Number(front), d);
    if Number(front) == 0 {
      AllZeros(front);
      zeros := front;
    } else {
      zeros := LeadingZeros(front);
      Joined(zeros, Format(Number(front)), Digit(d));
    }
  }

  lemma Joined(a: string, b: string, c: char)
    ensures (a + b) + [c] == a + (b + [c])
  {
  }

  lemma {:induction false} AllZeros(s: string)
    requires Digits(s) && Number(s) == 0
    ensures forall i :: 0 <= i < |s| ==> s[i] == '0'
  {
    if s != "" {
      AllZeros(s[..|s| - 1]);
    }
  }

  // ---- what an expression means -----------------------------------------------------------------

  /**
   * The ports of one item, if it is well formed: a port, or a range whose first port is not 0 and not above its last.
   */
  function Meaning(item: string): Option<Span> {
    if '-' in item then
      var parts := Split(item, '-');
      if |parts| != 2 then None else
      match (ParsePort(TrimSpace(parts[0])), ParsePort(TrimSpace(parts[1])))
      case (Some(lo), Some(hi)) => if lo == 0 || lo > hi then None else Some(Span(lo, hi))
      case _ => None
    else
      match ParsePort(item)
      case Some(port) => if port == 0 then None else Some(Span(port, port))
      case None => None
  }

  ghost predicate Denotes(pieces: seq<string>, port: nat) {
    exists i :: 0 <= i < |pieces| && Means(pieces[i], port)
  }

  predicate Means(piece: string, port: nat) {
    TrimSpace(piece) != "" && Meaning(TrimSpace(piece)).Some? && InSpan(Meaning(TrimSpace(piece)).value, port)
  }

  predicate Malformed(piece: string) {
    TrimSpace(piece) != "" && Meaning(TrimSpace(piece)).None?
  }

  /** Some item is not blank, and none that is not blank is malformed. */
  predicate Acceptable(pieces: seq<string>) {
    && (forall i :: 0 <= i < |pieces| ==> !Malformed(pieces[i]))
    && (exists i :: 0 <= i < |pieces| && TrimSpace(pieces[i]) != "")
  }

  // ---- the same, by the shape of the text -------------------------------------------------------

  ghost predicate Numeral(s: string, n: nat) {
    s != "" && Digits(s) && n == Number(s)
  }

  /** A number with white space around it. */
  ghost predicate Padded(s: string, n: nat) {
    exists left, digits, right :: s == left + digits + right && Spaces(left) && Spaces(right) && Numeral(digits, n)
  }

  /** A number, or two with a hyphen between them, with white space around each. */
  ghost predicate Spells(piece: string, span: Span) {
    || (Padded(piece, span.lo) && span.lo == span.hi)
    || exists first, second :: piece == first + "-" + second && Padded(first, span.lo) && Padded(second, span.hi)
  }

  ghost predicate PortSpan(span: Span) {
    0 < span.lo <= span.hi <= MAX_PORT
  }

  lemma PaddedTrims(s: string, n: nat)
    ensures Padded(s, n) <==> Numeral(TrimSpace(s), n)
    ensures Padded(s, n) ==> '-' !in s && !Spaces(s)
  {
    if left, digits, right :| s == left + digits + right && Spaces(left) && Spaces(right) && Numeral(digits, n) {
      TrimPadded(left, digits, right);
      TrimBlank(s);
    }
    if Numeral(TrimSpace(s), n) {
      var left, right := TrimExact(s);
    }
  }

  lemma RangeTrims(first: string, second: string, lo: nat, hi: nat)
    requires Padded(first, lo) && Padded(second, hi)
    ensures var text := TrimSpace(first + "-" + second);
      && '-' in text && |Split(text, '-')| == 2
      && Numeral(TrimSpace(Split(text, '-')[0]), lo) && Numeral(TrimSpace(Split(text, '-')[1]), hi)
  {
    hide TrimSpace, Split, Numeral, Padded, Spaces;
    var a, d, b := PaddedParts(first, lo);
    var a', d', b' := PaddedParts(second, hi);
    RangeTextTrims(a, d, b, a', d', b', lo, hi);
    Regroup(a, d, b, a', d', b');
    HalfTrims(d, b, a', d', lo, hi);
  }

  lemma PaddedParts(s: string, n: nat) returns (left: string, digits: string, right: string)
    requires Padded(s, n)
    ensures s == left + digits + right && Spaces(left) && Spaces(right) && Numeral(digits, n)
  {
    left, digits, right :| s == left + digits + right && Spaces(left) && Spaces(right) && Numeral(digits, n);
  }

  lemma Regroup(a: string, d: string, b: string, a': string, d': string, b': string)
    ensures (a + d + b) + "-" + (a' + d' + b') == a + (d + b + "-" + (a' + d')) + b'
  {
  }

  lemma RangeTextTrims(a: string, d: string, b: string, a': string, d': string, b': string, lo: nat, hi: nat)
    requires Spaces(a) && Spaces(b') && Numeral(d, lo) && Numeral(d', hi)
    ensures var text := d + b + "-" + (a' + d');
      TrimSpace(a + text + b') == text && '-' in text
  {
    hide TrimSpace, Number, Spaces;
    var text := d + b + "-" + (a' + d');
    assert text[0] == d[0] && text[|text| - 1] == d'[|d'| - 1] && text[|d| + |b|] == '-';
    TrimPadded(a, text, b');
  }

  lemma HalfTrims(d: string, b: string, a': string, d': string, lo: nat, hi: nat)
    requires Spaces(b) && Spaces(a') && Numeral(d, lo) && Numeral(d', hi)
    ensures var parts := Split(d + b + "-" + (a' + d'), '-');
      |parts| == 2 && TrimSpace(parts[0]) == d && TrimSpace(parts[1]) == d'
  {
    hide TrimSpace, Split, Number;
    TwoPieces(d + b, a' + d');
    assert d + b == "" + d + b && a' + d' == a' + d' + "";
    TrimPadded("", d, b);
    TrimPadded(a', d', "");
  }

  lemma TwoPieces(first: string, second: string)
    requires '-' !in first && '-' !in second
    ensures Split(first + "-" + second, '-') == [first, second]
  {
    var parts := [first, second];
    assert parts[1..] == [second];
    SplitUnique(parts, '-');
  }

  /** The ports of an item, exactly by its shape. */
  lemma MeaningBySpelling(piece: string, span: Span)
    ensures TrimSpace(piece) != "" && Meaning(TrimSpace(piece)) == Some(span) <==> Spells(piece, span) && PortSpan(span)
  {
    hide TrimSpace, Number, IsSpace;
    if Spells(piece, span) && PortSpan(span) {
      if Padded(piece, span.lo) && span.lo == span.hi {
        PaddedTrims(piece, span.lo);
      } else {
        var first, second :| piece == first + "-" + second && Padded(first, span.lo) && Padded(second, span.hi);
        RangeTrims(first, second, span.lo, span.hi);
      }
    }
    if TrimSpace(piece) != "" && Meaning(TrimSpace(piece)) == Some(span) {
      var text := TrimSpace(piece);
      if '-' in text {
        SpellsRange(piece, span);
      } else {
        PaddedTrims(piece, span.lo);
      }
    }
  }

  lemma SpellsRange(piece: string, span: Span)
    requires '-' in TrimSpace(piece) && Meaning(TrimSpace(piece)) == Some(span)
    ensures Spells(piece, span)
  {
    hide TrimSpace, Number, IsSpace;
    var text := TrimSpace(piece);
    var left, right := TrimExact(piece);
    var parts := Split(text, '-');
    SplitIsExact(text, '-');
    assert parts[1..] == [parts[1]];
    assert text == parts[0] + "-" + parts[1];
    var first, second := left + parts[0], parts[1] + right;
    assert piece == first + "-" + second;
    PadLeft(left, parts[0], span.lo);
    PadRight(parts[1], right, span.hi);
  }

  lemma PadLeft(left: string, s: string, n: nat)
    requires Spaces(left) && Numeral(TrimSpace(s), n)
    ensures Padded(left + s, n)
  {
    var a, b := TrimExact(s);
    assert left + s == (left + a) + TrimSpace(s) + b;
    assert Spaces(left + a);
  }

  lemma PadRight(s: string, right: string, n: nat)
    requires Spaces(right) && Numeral(TrimSpace(s), n)
    ensures Padded(s + right, n)
  {
    var a, b := TrimExact(s);
    assert s + right == a + TrimSpace(s) + (b + right);
    assert Spaces(b + right);
  }

  /** Each item is blank, or spells ports. */
  ghost predicate WellFormed(pieces: seq<string>) {
    && (forall i :: 0 <= i < |pieces| ==> Spaces(pieces[i]) || exists span :: Spells(pieces[i], span) && PortSpan(span))
    && (exists i :: 0 <= i < |pieces| && !Spaces(pieces[i]))
  }

  ghost predicate SpellsPort(piece: string, port: nat) {
    exists span :: Spells(piece, span) && PortSpan(span) && span.lo <= port <= span.hi
  }

  ghost predicate Spelled(pieces: seq<string>, port: nat) {
    exists i :: 0 <= i < |pieces| && SpellsPort(pieces[i], port)
  }

  lemma MeansBySpelling(piece: string, port: nat)
    ensures Means(piece, port) <==> SpellsPort(piece, port)
    ensures Malformed(piece) <==> !Spaces(piece) && !exists span :: Spells(piece, span) && PortSpan(span)
  {
    TrimBlank(piece);
    hide TrimSpace, Meaning, Spells, PortSpan, Spaces;
    forall span ensures TrimSpace(piece) != "" && Meaning(TrimSpace(piece)) == Some(span) <==>
        Spells(piece, span) && PortSpan(span)
    {
      MeaningBySpelling(piece, span);
    }
  }

  lemma AcceptsBySpelling(pieces: seq<string>)
    ensures Acceptable(pieces) <==> WellFormed(pieces)
    ensures forall port: nat :: Denotes(pieces, port) <==> Spelled(pieces, port)
  {
    hide TrimSpace, Means, Malformed, Spells, PortSpan, Spaces, SpellsPort;
    forall piece ensures TrimSpace(piece) == "" <==> Spaces(piece)
                 ensures Malformed(piece) <==> !Spaces(piece) && !exists span :: Spells(piece, span) && PortSpan(span)
    {
      TrimBlank(piece);
      MeansBySpelling(piece, 0);
    }
    forall piece, port: nat ensures Means(piece, port) <==> SpellsPort(piece, port) {
      MeansBySpelling(piece, port);
    }
  }

  // ---- how a rule reads a range -----------------------------------------------------------------

  function IndexOf(s: string, c: char): (k: nat)
    ensures k <= |s| && (k < |s| ==> s[k] == c)
    ensures forall i :: 0 <= i < k ==> s[i] != c
  {
    if s == "" || s[0] == c then 0 else 1 + IndexOf(s[1..], c)
  }

  /** A missing bound is the lowest or highest port; a missing colon is an error. */
  function ReadRange(s: string): Option<Span> {
    var k := IndexOf(s, ':');
    if k == |s| then None else
    var lo := if k > 0 then ParsePort(s[..k]) else Some(0);
    var hi := if k == |s| - 1 then Some(MAX_PORT) else ParsePort(s[k + 1..]);
    if lo.None? || hi.None? then None else Some(Span(lo.value, hi.value))
  }

  /** Either bound may be missing; everything else that is not a range of ports is refused. */
  lemma ReadsRange(s: string, span: Span)
    ensures ReadRange(s) == Some(span) <==> exists first, second :: RangeText(s, first, second, span)
  {
    hide Number;
    var k := IndexOf(s, ':');
    if ReadRange(s) == Some(span) {
      assert s == s[..k] + ":" + s[k + 1..];
      assert RangeText(s, s[..k], s[k + 1..], span);
    }
    if first, second :| RangeText(s, first, second, span) {
      assert s[|first|] == ':' && forall i :: 0 <= i < |first| ==> s[i] == first[i];
      assert k == |first| && s[..k] == first && s[k + 1..] == second;
    }
  }

  ghost predicate RangeText(s: string, first: string, second: string, span: Span) {
    && s == first + ":" + second && ':' !in first && span.lo <= MAX_PORT && span.hi <= MAX_PORT
    && (if first == "" then span.lo == 0 else Numeral(first, span.lo))
    && (if second == "" then span.hi == MAX_PORT else Numeral(second, span.hi))
  }

  function Range(span: Span): string {
    Format(span.lo) + ":" + Format(span.hi)
  }

  lemma RangeReads(span: Span)
    requires span.lo <= MAX_PORT && span.hi <= MAX_PORT
    ensures ReadRange(Range(span)) == Some(span)
  {
    var s, lo, hi := Range(span), Format(span.lo), Format(span.hi);
    FormatReads(span.lo);
    FormatReads(span.hi);
    assert s[|lo|] == ':';
    assert forall i :: 0 <= i < |lo| ==> s[i] == lo[i];
    assert IndexOf(s, ':') == |lo|;
    assert s[..|lo|] == lo && s[|lo| + 1..] == hi;
  }

  /** The ports a rule with these two fields matches. */
  ghost predicate Matches(ports: seq<nat>, ranges: seq<string>, port: nat) {
    port in ports || exists i :: 0 <= i < |ranges| && RangeHas(ranges[i], port)
  }

  predicate RangeHas(range: string, port: nat) {
    ReadRange(range).Some? && InSpan(ReadRange(range).value, port)
  }

  ghost predicate Readable(ranges: seq<string>) {
    forall i :: 0 <= i < |ranges| ==> ReadRange(ranges[i]).Some?
  }

  // ---- the translation --------------------------------------------------------------------------

  datatype Raw = Absent | JsonNumber(n: nat) | JsonString(s: string) | OtherJson

  datatype Fields =
    | Untouched
    | Single(port: nat)
    | Lists(ports: seq<nat>, ranges: seq<string>)
    | Rejected

  /** What the translation has emitted for the pieces read so far. */
  ghost predicate Emitted(pieces: seq<string>, ports: seq<nat>, ranges: seq<string>) {
    && Readable(ranges)
    && (forall port: nat :: Denotes(pieces, port) <==> Matches(ports, ranges, port))
    && (forall i :: 0 <= i < |pieces| ==> !Malformed(pieces[i]))
    && (ports == [] && ranges == [] <==> forall i :: 0 <= i < |pieces| ==> TrimSpace(pieces[i]) == "")
  }

  lemma DenotesMore(pieces: seq<string>, piece: string, port: nat)
    ensures Denotes(pieces + [piece], port) <==> Denotes(pieces, port) || Means(piece, port)
  {
    var more := pieces + [piece];
    if Denotes(pieces, port) {
      var i :| 0 <= i < |pieces| && Means(pieces[i], port);
      assert Means(more[i], port);
    }
    if Means(piece, port) {
      assert Means(more[|pieces|], port);
    }
  }

  lemma MatchesMore(ports: seq<nat>, ranges: seq<string>, range: string, port: nat)
    ensures Matches(ports, ranges + [range], port) <==> Matches(ports, ranges, port) || RangeHas(range, port)
  {
    var more := ranges + [range];
    if i :| 0 <= i < |ranges| && RangeHas(ranges[i], port) {
      assert RangeHas(more[i], port);
    }
    if RangeHas(range, port) {
      assert RangeHas(more[|ranges|], port);
    }
  }

  lemma EmitBlank(pieces: seq<string>, piece: string, ports: seq<nat>, ranges: seq<string>)
    requires Emitted(pieces, ports, ranges) && TrimSpace(piece) == ""
    ensures Emitted(pieces + [piece], ports, ranges)
  {
    hide Denotes, Matches, TrimSpace;
    forall port: nat
      ensures Denotes(pieces + [piece], port) <==> Matches(ports, ranges, port)
    {
      DenotesMore(pieces, piece, port);
    }
    BlankMore(pieces, piece);
  }

  lemma BlankMore(pieces: seq<string>, piece: string)
    ensures (forall i :: 0 <= i < |pieces + [piece]| ==> TrimSpace((pieces + [piece])[i]) == "") <==>
            (forall i :: 0 <= i < |pieces| ==> TrimSpace(pieces[i]) == "") && TrimSpace(piece) == ""
  {
    assert (pieces + [piece])[|pieces|] == piece;
    assert forall i :: 0 <= i < |pieces| ==> (pieces + [piece])[i] == pieces[i];
  }

  lemma EmitPort(pieces: seq<string>, piece: string, ports: seq<nat>, ranges: seq<string>, port: nat)
    requires Emitted(pieces, ports, ranges) && TrimSpace(piece) != ""
      && Meaning(TrimSpace(piece)) == Some(Span(port, port))
    ensures Emitted(pieces + [piece], ports + [port], ranges)
  {
    hide Denotes, TrimSpace, Meaning, RangeHas;
    forall p: nat
      ensures Denotes(pieces + [piece], p) <==> Matches(ports + [port], ranges, p)
    {
      DenotesMore(pieces, piece, p);
    }
    BlankMore(pieces, piece);
  }

  lemma EmitRange(pieces: seq<string>, piece: string, ports: seq<nat>, ranges: seq<string>, span: Span)
    requires Emitted(pieces, ports, ranges) && TrimSpace(piece) != "" && Meaning(TrimSpace(piece)) == Some(span)
    requires span.lo <= MAX_PORT && span.hi <= MAX_PORT
    ensures Emitted(pieces + [piece], ports, ranges + [Range(span)])
  {
    hide Denotes, TrimSpace, Meaning, Matches, ReadRange;
    RangeReads(span);
    forall p: nat
      ensures Denotes(pieces + [piece], p) <==> Matches(ports, ranges + [Range(span)], p)
    {
      DenotesMore(pieces, piece, p);
      MatchesMore(ports, ranges, Range(span), p);
    }
    BlankMore(pieces, piece);
  }

  /** One item: nothing, a port, a range, or an error. */
  datatype Item = Blank | Port(port: nat) | PortRange(span: Span) | Bad

  method ParseItem(piece: string) returns (item: Item)
    ensures item.Blank? <==> TrimSpace(piece) == ""
    ensures item.Bad? <==> Malformed(piece)
    ensures item.Port? ==> Meaning(TrimSpace(piece)) == Some(Span(item.port, item.port))
    ensures item.PortRange? ==>
      Meaning(TrimSpace(piece)) == Some(item.span) && item.span.hi <= MAX_PORT && item.span.lo <= MAX_PORT
  {
    hide TrimSpace, Split, Number;
    var text := TrimSpace(piece);
    if text == "" {
      return Blank;
    }
    if '-' in text {
      var parts := Split(text, '-');
      if |parts| != 2 {
        return Bad;
      }
      var lo := ParsePort(TrimSpace(parts[0]));
      var hi := ParsePort(TrimSpace(parts[1]));
      if lo.None? || hi.None? || lo.value == 0 || lo.value > hi.value {
        return Bad;
      }
      return PortRange(Span(lo.value, hi.value));
    }
    var port := ParsePort(text);
    if port.None? || port.value == 0 {
      return Bad;
    }
    return Port(port.value);
  }

  /** The loop over the items: it stops at the first malformed one. */
  method TranslateItems(pieces: seq<string>) returns (ok: bool, ports: seq<nat>, ranges: seq<string>)
    ensures ok ==> Emitted(pieces, ports, ranges)
    ensures !ok <==> exists i :: 0 <= i < |pieces| && Malformed(pieces[i])
  {
    hide Emitted, Malformed, Meaning, TrimSpace, Range;
    ports, ranges := [], [];
    EmitNothing();
    for i := 0 to |pieces|
      invariant Emitted(pieces[..i], ports, ranges)
      invariant forall j :: 0 <= j < i ==> !Malformed(pieces[j])
    {
      var item := ParseItem(pieces[i]);
      assert pieces[..i + 1] == pieces[..i] + [pieces[i]];
      match item
      case Bad => return false, ports, ranges;
      case Blank => EmitBlank(pieces[..i], pieces[i], ports, ranges);
      case Port(port) =>
        EmitPort(pieces[..i], pieces[i], ports, ranges, port);
        ports := ports + [port];
      case PortRange(span) =>
        EmitRange(pieces[..i], pieces[i], ports, ranges, span);
        ranges := ranges + [Range(span)];
    }
    assert pieces[..|pieces|] == pieces;
    ok := true;
  }

  lemma EmitNothing()
    ensures Emitted([], [], [])
  {
  }

  /**
   * A string is rejected exactly when some item that is not blank is malformed or every item is blank; otherwise
   * the two lists match exactly the ports the expression denotes, and every range can be read back.
   */
  method AppendPortMatch(raw: Raw) returns (fields: Fields)
    ensures raw.Absent? ==> fields == Untouched
    ensures raw.JsonNumber? ==> fields == if raw.n <= 65535 then Single(raw.n) else Rejected
    ensures raw.OtherJson? ==> fields == Rejected
    ensures raw.JsonString? ==> fields.Lists? || fields.Rejected?
    ensures raw.JsonString? ==> (fields.Rejected? <==> !Acceptable(Split(raw.s, ',')))
    ensures raw.JsonString? && fields.Lists? ==>
              && Readable(fields.ranges)
              && forall port: nat :: Denotes(Split(raw.s, ','), port) <==> Matches(fields.ports, fields.ranges, port)
    ensures raw.JsonString? ==> (fields.Rejected? <==> !WellFormed(Split(raw.s, ',')))
    ensures raw.JsonString? && fields.Lists? ==>
              forall port: nat :: Spelled(Split(raw.s, ','), port) <==> Matches(fields.ports, fields.ranges, port)
  {
    hide WellFormed, Spelled, Malformed, TrimSpace, Split, Denotes, Matches, Readable;
    match raw
    case Absent => return Untouched;
    case JsonNumber(n) =>
      if n > MAX_PORT {
        return Rejected;
      }
      return Single(n);
    case OtherJson => return Rejected;
    case JsonString(s) =>
      AcceptsBySpelling(Split(s, ','));
      var ok, ports, ranges := TranslateItems(Split(s, ','));
      if !ok || (ports == [] && ranges == []) {
        return Rejected;
      }
      fields := Lists(ports, ranges);
  }

  /** A rule's port ranges: fails exactly when some range cannot be read. */
  method NewPortRanges(ranges: seq<string>) returns (spans: Option<seq<Span>>)
    ensures spans.Some? <==> Readable(ranges)
    ensures spans.Some? ==>
              |spans.value| == |ranges| && forall i :: 0 <= i < |ranges| ==>
                ReadRange(ranges[i]) == Some(spans.value[i])
  {
    var list: seq<Span> := [];
    for i := 0 to |ranges|
      invariant |list| == i && forall j :: 0 <= j < i ==> ReadRange(ranges[j]) == Some(list[j])
    {
      var span := ReadRange(ranges[i]);
      if span.None? {
        return None;
      }
      list := list + [span.value];
    }
    spans := Some(list);
  }

  method MatchRanges(spans: seq<Span>, port: nat) returns (found: bool)
    ensures found <==> exists i :: 0 <= i < |spans| && InSpan(spans[i], port)
  {
    for i := 0 to |spans|
      invariant forall j :: 0 <= j < i ==> !InSpan(spans[j], port)
    {
      if InSpan(spans[i], port) {
        return true;
      }
    }
    found := false;
  }

  /** From expression to verdict: a translated rule matches a port exactly when the expression denotes it. */
  method TranslateAndMatch(s: string, port: nat) returns (verdict: Option<bool>)
    ensures verdict.None? <==> !Acceptable(Split(s, ','))
    ensures verdict.Some? ==> (verdict.value <==> Denotes(Split(s, ','), port))
    ensures verdict.None? <==> !WellFormed(Split(s, ','))
    ensures verdict.Some? ==> (verdict.value <==> Spelled(Split(s, ','), port))
  {
    hide WellFormed, Spelled, Acceptable, Denotes, Split, ReadRange;
    var fields := AppendPortMatch(JsonString(s));
    if fields.Rejected? {
      return None;
    }
    var spans := NewPortRanges(fields.ranges);
    var inRanges := MatchRanges(spans.value, port);
    assert inRanges <==> exists i :: 0 <= i < |fields.ranges| && RangeHas(fields.ranges[i], port);
    verdict := Some(port in fields.ports || inRanges);
  }

  lemma FormatIsNumeral(n: nat)
    ensures Padded(Format(n), n) && ',' !in Format(n) && !Spaces(Format(n)) && '-' !in Format(n)
  {
    hide Format, Number;
    FormatReads(n);
    var s := Format(n);
    assert s == "" + s + "";
    assert Digits(s) && !IsSpace(s[0]);
  }

  lemma OnePiece(s: string)
    requires ',' !in s
    ensures Split(s, ',') == [s]
  {
    SplitUnique([s], ',');
  }

  lemma PaddedOnce(s: string, n: nat, n': nat)
    requires Padded(s, n) && Padded(s, n')
    ensures n == n'
  {
    PaddedTrims(s, n);
    PaddedTrims(s, n');
  }

  /** A port written as a number matches exactly that port; 0 and what is no port are refused. */
  method MatchOnePort(n: nat, port: nat) returns (verdict: Option<bool>)
    ensures verdict == if 0 < n <= 65535 then Some(port == n) else None
  {
    hide Padded, Split, WellFormed, Spelled;
    FormatIsNumeral(n);
    OnePiece(Format(n));
    OnePort(Format(n), n, port);
    verdict := TranslateAndMatch(Format(n), port);
  }

  lemma NoHyphen(s: string, first: string, second: string)
    requires '-' !in s
    ensures s != first + "-" + second
  {
    assert (first + "-" + second)[|first|] == '-';
  }

  lemma OnePort(s: string, n: nat, port: nat)
    requires Padded(s, n) && !Spaces(s) && '-' !in s
    ensures WellFormed([s]) <==> 0 < n <= MAX_PORT
    ensures WellFormed([s]) ==> (Spelled([s], port) <==> port == n)
  {
    hide Padded, Spaces;
    forall span | Spells(s, span) ensures span == Span(n, n) {
      forall first, second ensures s != first + "-" + second {
        NoHyphen(s, first, second);
      }
      PaddedOnce(s, n, span.lo);
    }
    assert Spells(s, Span(n, n));
    assert [s][0] == s;
    assert 0 < n <= MAX_PORT && port == n ==> PortSpan(Span(n, n)) && SpellsPort([s][0], port);
  }

  /** Two numbers with a hyphen match exactly the ports between them; an empty range and one from 0 are refused. */
  method MatchOneRange(lo: nat, hi: nat, port: nat) returns (verdict: Option<bool>)
    ensures verdict == if 0 < lo <= hi <= 65535 then Some(lo <= port <= hi) else None
  {
    hide Padded, Split, WellFormed, Spelled;
    var s := Format(lo) + "-" + Format(hi);
    FormatIsNumeral(lo);
    FormatIsNumeral(hi);
    OnePiece(s);
    OneRange(Format(lo), Format(hi), lo, hi, port);
    verdict := TranslateAndMatch(s, port);
  }

  lemma OneRange(a: string, b: string, lo: nat, hi: nat, port: nat)
    requires Padded(a, lo) && Padded(b, hi) && '-' !in a && '-' !in b
    ensures var s := a + "-" + b;
      && (WellFormed([s]) <==> 0 < lo <= hi <= MAX_PORT)
      && (WellFormed([s]) ==> (Spelled([s], port) <==> lo <= port <= hi))
  {
    hide Padded;
    var s, all := a + "-" + b, Span(lo, hi);
    assert s[|a|] == '-';
    forall span | Spells(s, span) ensures span == all {
      if Padded(s, span.lo) {
        PaddedTrims(s, span.lo);
        assert false;
      }
      var first, second :| s == first + "-" + second && Padded(first, span.lo) && Padded(second, span.hi);
      PaddedTrims(first, span.lo);
      PaddedTrims(second, span.hi);
      TwoPieces(first, second);
      TwoPieces(a, b);
      PaddedOnce(a, lo, span.lo);
      PaddedOnce(b, hi, span.hi);
    }
    assert Spells(s, all);
    assert !Spaces(s);
    assert [s][0] == s;
    assert PortSpan(all) && lo <= port <= hi ==> SpellsPort([s][0], port);
  }
}
