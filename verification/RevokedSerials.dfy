/**
 The revoked-serial list: written from the CA's directory, carried to the relay as text,
 edited by hand on the way perhaps, and read back (internal/ca/ca.go, cmd/ggrok/ca.go).
 */
module RevokedSerials {
  import opened Common
  import opened Strings
  import opened Numerals

  /** bufio's token limit: a line must end within its first 64KiB. */
  const MAX_TOKEN := 64 * 1024

  // ---- reading -----------------------------------------------------------------------------

  /** Unicode's White_Space, as strings.TrimSpace strips it. */
  predicate IsSpace(c: char) {
    c == ' ' || '\t' <= c <= '\r' || c == '\U{85}' || c == '\U{A0}' || c == '\U{1680}' || '\U{2000}' <= c <= '\U{200A}'
    || c == '\U{2028}' || c == '\U{2029}' || c == '\U{202F}' || c == '\U{205F}' || c == '\U{3000}'
  }

  /** In ASCII that is tab, newline, vertical tab, form feed, carriage return and space. */
  lemma SpaceIff(c: char)
    requires c < '\U{80}'
    ensures IsSpace(c) <==> c in ['\t', '\n', '\U{0B}', '\U{0C}', '\r', ' ']
  {
  }

  function TrimLeft(s: string): string {
    if s != "" && IsSpace(s[0]) then TrimLeft(s[1..]) else s
  }

  function TrimRight(s: string): string {
    if s != "" && IsSpace(s[|s| - 1]) then TrimRight(s[..|s| - 1]) else s
  }

  function TrimSpace(s: string): string { TrimRight(TrimLeft(s)) }

  /** The length of `s` in UTF-8, which is what the scanner's buffer holds. */
  function Size(s: string): nat {
    if s == "" then 0
    else (if s[0] < '\U{80}' then 1 else if s[0] < '\U{800}' then 2 else if s[0] < '\U{10000}' then 3 else 4) + Size(s[1..])
  }

  /** The lines of a text without their newlines; a last line need not have one. */
  function Lines(s: string): seq<string>
    decreases |s|
  {
    if s == "" then []
    else
      var i := IndexOf(s, '\n');
      if i == |s| then [s] else [s[..i]] + Lines(s[i + 1..])
  }

  /** bufio.ScanLines drops one carriage return. */
  function DropCR(line: string): string {
    if line != "" && line[|line| - 1] == '\r' then line[..|line| - 1] else line
  }

  datatype Meaning = Blank | Serial(n: nat) | Bad

  /** What a line says. */
  function Means(line: string): Meaning {
    var s := TrimSpace(DropCR(line));
    if s == "" then Blank
    else if !AllDigits(s, 16) then Bad
    else if Value(s, 16) == 0 then Bad
    else Serial(Value(s, 16))
  }

  datatype Error = InvalidSerial | TooLong

  type Parse = Result<set<string>, Error>

  /** A line too long to be scanned ends the scan, whatever it says. */
  predicate Readable(line: string) { Size(line) < MAX_TOKEN }

  /** The serials of the lines, in canonical text; the first line that is unreadable or bad decides the error. */
  function Parsed(lines: seq<string>): Parse {
    if lines == [] then Ok({})
    else if !Readable(lines[0]) then Err(TooLong)
    else if Means(lines[0]).Bad? then Err(InvalidSerial)
    else
      var rest := Parsed(lines[1..]);
      if rest.Ok? && Means(lines[0]).Serial? then Ok({Text(Means(lines[0]).n, 16)} + rest.value) else rest
  }

  function Joined(serials: set<string>, r: Parse): Parse {
    if r.Ok? then Ok(serials + r.value) else r
  }

  method ParseRevokedSerials(text: string) returns (r: Parse)
    ensures r == Parsed(Lines(text))
  {
    hide Means, Readable, Lines, Text;
    var lines, serials := Lines(text), {};
    assert lines[0..] == lines;
    ghost var all := Parsed(lines);
    assert all.Ok? ==> {} + all.value == all.value;
    for k := 0 to |lines|
      invariant all == Joined(serials, Parsed(lines[k..]))
    {
      assert lines[k..][1..] == lines[k + 1..];
      if !Readable(lines[k]) { return Err(TooLong); }
      match Means(lines[k]) {
        case Blank =>
        case Bad => return Err(InvalidSerial);
        case Serial(n) =>
          ghost var rest := Parsed(lines[k + 1..]);
          assert rest.Ok? ==> serials + ({Text(n, 16)} + rest.value) == (serials + {Text(n, 16)}) + rest.value;
          serials := serials + {Text(n, 16)};
      }
    }
    return Ok(serials);
  }

  predicate LineOk(line: string) { Readable(line) && !Means(line).Bad? }

  ghost predicate Says(lines: seq<string>, n: nat) {
    exists i :: 0 <= i < |lines| && Means(lines[i]) == Serial(n)
  }

  ghost predicate AllOk(lines: seq<string>) {
    forall i :: 0 <= i < |lines| ==> LineOk(lines[i])
  }

  lemma SplitAllOk(lines: seq<string>)
    requires lines != []
    ensures AllOk(lines) <==> LineOk(lines[0]) && AllOk(lines[1..])
  {
    hide LineOk;
    var rest := lines[1..];
    assert forall i :: 0 < i < |lines| ==> lines[i] == rest[i - 1];
  }

  lemma SplitSays(lines: seq<string>, n: nat)
    requires lines != []
    ensures Says(lines, n) <==> Means(lines[0]) == Serial(n) || Says(lines[1..], n)
  {
    hide Means;
    var rest := lines[1..];
    assert forall i :: 0 <= i < |rest| ==> lines[i + 1] == rest[i];
    if Says(lines, n) && Means(lines[0]) != Serial(n) {
      var i :| 0 <= i < |lines| && Means(lines[i]) == Serial(n);
      assert rest[i - 1] == lines[i];
    }
  }

  /** The list is accepted exactly when every line is, and holds exactly what some line says. */
  lemma {:induction false} ParsedIff(lines: seq<string>)
    ensures Parsed(lines).Ok? <==> AllOk(lines)
    ensures Parsed(lines).Ok? ==> forall n: nat :: Text(n, 16) in Parsed(lines).value <==> Says(lines, n)
    ensures Parsed(lines).Ok? ==> forall t :: t in Parsed(lines).value ==> exists n: nat :: t == Text(n, 16) && Says(lines, n)
  {
    hide Means, Readable, Text;
    if lines == [] {
    } else {
      var rest := lines[1..];
      ParsedIff(rest);
      assert AllOk(lines) <==> LineOk(lines[0]) && AllOk(rest) by { SplitAllOk(lines); }
      forall n: nat ensures Says(lines, n) <==> Means(lines[0]) == Serial(n) || Says(rest, n) { SplitSays(lines, n); }
      if Means(lines[0]).Serial? {
        var m := Means(lines[0]).n;
        forall n: nat ensures Text(n, 16) == Text(m, 16) <==> n == m {
          if Text(n, 16) == Text(m, 16) { TextIsInjective(n, m, 16); }
        }
      }
    }
  }

  /** Order, repetition and blank lines do not matter: two accepted lists that say the same serials are the same list. */
  lemma OnlyWhatIsSaidMatters(a: seq<string>, b: seq<string>)
    requires AllOk(a) && AllOk(b) && forall n: nat :: Says(a, n) <==> Says(b, n)
    ensures Parsed(a) == Parsed(b)
  {
    ParsedIff(a);
    ParsedIff(b);
    hide Parsed, Says, AllOk;
    assert Parsed(a).value == Parsed(b).value;
  }

  // ---- what a line may vary in -------------------------------------------------------------

  predicate AllSpace(s: string) { forall i :: 0 <= i < |s| ==> IsSpace(s[i]) }

  lemma TrimRightIgnoresOne(s: string, c: char)
    requires IsSpace(c)
    ensures TrimRight(s + [c]) == TrimRight(s)
  {
    assert (s + [c])[..|s|] == s;
  }

  lemma {:induction false} TrimLeftThenPad(s: string, c: char)
    requires IsSpace(c)
    ensures TrimLeft(s + [c]) == (if TrimLeft(s) == "" then "" else TrimLeft(s) + [c])
  {
    if s == "" {
      assert (s + [c])[1..] == "";
    } else if IsSpace(s[0]) {
      assert (s + [c])[1..] == s[1..] + [c];
      TrimLeftThenPad(s[1..], c);
    }
  }

  lemma TrimSpaceIgnoresOne(s: string, c: char)
    requires IsSpace(c)
    ensures TrimSpace([c] + s) == TrimSpace(s) == TrimSpace(s + [c])
  {
    hide IsSpace;
    assert ([c] + s)[1..] == s;
    TrimLeftThenPad(s, c);
    TrimRightIgnoresOne(TrimLeft(s), c);
  }

  lemma {:induction false} TrimSpaceIgnoresPadding(before: string, s: string, after: string)
    requires AllSpace(before) && AllSpace(after)
    ensures TrimSpace(before + s + after) == TrimSpace(s)
    decreases |before| + |after|
  {
    hide IsSpace, TrimSpace;
    var padded := before + s + after;
    if before == "" && after == "" {
      assert padded == s;
    } else if before != "" {
      TrimSpaceIgnoresPadding(before[1..], s, after);
      assert padded == [before[0]] + (before[1..] + s + after);
      TrimSpaceIgnoresOne(before[1..] + s + after, before[0]);
    } else {
      var init, last := after[..|after| - 1], after[|after| - 1];
      TrimSpaceIgnoresPadding(before, s, init);
      assert padded == before + s + init + [last];
      TrimSpaceIgnoresOne(before + s + init, last);
    }
  }

  /** The scanner's carriage return is one more space. */
  lemma DropCRIsTrimming(line: string)
    ensures TrimSpace(DropCR(line)) == TrimSpace(line)
  {
    var text := DropCR(line);
    if text != line {
      assert line == text + ['\r'];
      TrimSpaceIgnoresOne(text, '\r');
    }
  }

  /** What a line says is what it says once trimmed, of any white space on either side. */
  lemma MeaningIgnoresPadding(x: string, y: string)
    requires TrimSpace(x) == TrimSpace(y)
    ensures Means(x) == Means(y)
  {
    hide TrimSpace, DropCR;
    DropCRIsTrimming(x);
    DropCRIsTrimming(y);
  }

  function Zeros(n: nat): string {
    if n == 0 then "" else "0" + Zeros(n - 1)
  }

  lemma {:induction false} ValueIgnoresLeadingZeros(n: nat, s: string, b: nat)
    requires Base(b) && AllDigits(s, b)
    ensures AllDigits(Zeros(n) + s, b) && Value(Zeros(n) + s, b) == Value(s, b)
  {
    hide Value;
    if n == 0 {
      assert Zeros(n) + s == s;
    } else {
      ValueIgnoresLeadingZeros(n - 1, s, b);
      ValueIgnoresLeadingZero(Zeros(n - 1) + s, b);
      assert Zeros(n) + s == "0" + (Zeros(n - 1) + s);
    }
  }

  lemma DigitsMean(s: string)
    requires AllDigits(s, 16) && s != ""
    ensures Means(s) == if Value(s, 16) == 0 then Bad else Serial(Value(s, 16))
  {
    assert forall c :: IsSpace(c) ==> Digit(c) == 16;
    hide IsSpace;
  }

  /**
   White space around it, the case of its digits and zeros before them change nothing of what a
   line says: any line made from the digits of `s` in these ways says the value of `s`, or is
   refused with it when that is nought.
   */
  lemma MeaningIgnoresStyle(s: string, t: string, n: nat, before: string, after: string)
    requires AllDigits(s, 16) && s != "" && |s| == |t| && forall i :: 0 <= i < |s| ==> Digit(s[i]) == Digit(t[i])
    requires AllSpace(before) && AllSpace(after)
    ensures Means(before + (Zeros(n) + t) + after) == Means(s) == if Value(s, 16) == 0 then Bad else Serial(Value(s, 16))
  {
    ValueIgnoresCase(s, t, 16);
    ValueIgnoresLeadingZeros(n, t, 16);
    DigitsMean(s);
    DigitsMean(Zeros(n) + t);
    hide Value, AllDigits, Means, AllSpace;
    TrimSpaceIgnoresPadding(before, Zeros(n) + t, after);
    hide TrimSpace;
    MeaningIgnoresPadding(before + (Zeros(n) + t) + after, Zeros(n) + t);
  }

  // ---- what each line is, and what is refused ------------------------------------------------

  /** The white space before and behind what is left of a trimmed text. */
  lemma {:induction false} TrimLeftIsTail(s: string) returns (before: string)
    ensures AllSpace(before) && s == before + TrimLeft(s)
    ensures TrimLeft(s) == "" || !IsSpace(TrimLeft(s)[0])
  {
    hide IsSpace;
    if s == "" || !IsSpace(s[0]) {
      before := "";
    } else {
      before := TrimLeftIsTail(s[1..]);
      before := [s[0]] + before;
      assert s == [s[0]] + s[1..];
    }
  }

  lemma {:induction false} TrimRightIsHead(s: string) returns (after: string)
    ensures AllSpace(after) && s == TrimRight(s) + after
  {
    hide IsSpace;
    if s == "" || !IsSpace(s[|s| - 1]) {
      after := "";
    } else {
      var init := s[..|s| - 1];
      after := TrimRightIsHead(init);
      after := after + [s[|s| - 1]];
      assert s == init + [s[|s| - 1]];
      assert TrimRight(s) + after == s;
    }
  }

  lemma TrimSpaceIsMiddle(s: string) returns (before: string, after: string)
    ensures AllSpace(before) && AllSpace(after) && s == before + TrimSpace(s) + after
  {
    before := TrimLeftIsTail(s);
    after := TrimRightIsHead(TrimLeft(s));
    hide AllSpace;
    assert before + (TrimSpace(s) + after) == before + TrimSpace(s) + after;
  }

  /** Only the hexadecimal digits, in either case, and at least one. */
  predicate Hexadecimal(s: string) {
    s != "" && forall i :: 0 <= i < |s| ==> s[i] in "0123456789abcdefABCDEF"
  }

  lemma HexadecimalIff(s: string)
    ensures Hexadecimal(s) <==> s != "" && AllDigits(s, 16)
  {
    forall i | 0 <= i < |s| ensures s[i] in "0123456789abcdefABCDEF" <==> Digit(s[i]) < 16 { DigitIff(s[i]); }
  }

  /** The line is `digits` in some white space. */
  ghost predicate Holds(line: string, digits: string) {
    exists before, after :: AllSpace(before) && AllSpace(after) && line == before + digits + after
  }

  lemma BlankMeansBlank(line: string)
    ensures AllSpace(line) ==> Means(line).Blank?
  {
    if AllSpace(line) {
      TrimSpaceIgnoresPadding(line, "", "");
      assert line + "" + "" == line;
      MeaningIgnoresPadding(line, "");
    }
  }

  lemma DigitsMeanThemselves(line: string, digits: string)
    requires Holds(line, digits) && Hexadecimal(digits)
    ensures AllDigits(digits, 16) && Means(line) == if Value(digits, 16) == 0 then Bad else Serial(Value(digits, 16))
  {
    HexadecimalIff(digits);
    DigitsMean(digits);
    var before, after :| AllSpace(before) && AllSpace(after) && line == before + digits + after;
    hide Means, AllSpace, TrimSpace, Value;
    TrimSpaceIgnoresPadding(before, digits, after);
    MeaningIgnoresPadding(line, digits);
  }

  /**
   What a line is, character by character: nothing exactly when it is all white space; a serial
   exactly when, but for white space around it, it is hexadecimal digits of a positive value;
   and bad in every other case, so that a nought and anything that is no such number is refused.
   */
  lemma LineMeansIff(line: string, n: nat)
    ensures Means(line).Blank? <==> AllSpace(line)
    ensures Means(line) == Serial(n) <==>
            n > 0 && exists digits :: Holds(line, digits) && Hexadecimal(digits) && AllDigits(digits, 16) && Value(digits, 16) == n
    ensures Means(line).Bad? <==>
            !AllSpace(line) && forall digits :: Holds(line, digits) && Hexadecimal(digits) ==> AllDigits(digits, 16) && Value(digits, 16) == 0
  {
    var middle := TrimSpace(line);
    var before, after := TrimSpaceIsMiddle(line);
    DropCRIsTrimming(line);
    HexadecimalIff(middle);
    BlankMeansBlank(line);
    assert Holds(line, middle);
    if Means(line).Blank? {
      assert middle == "" && line == before + after by { assert line == before + "" + after; }
    }
    forall digits | Holds(line, digits) && Hexadecimal(digits)
      ensures AllDigits(digits, 16) && Means(line) == if Value(digits, 16) == 0 then Bad else Serial(Value(digits, 16))
    {
      DigitsMeanThemselves(line, digits);
    }
    hide TrimSpace, DropCR, Hexadecimal, Holds, AllSpace, Value, IsSpace;
  }

  /** The first line that is not acceptable decides the error: too long before anything it says. */
  lemma {:induction false} FirstBadLineDecides(lines: seq<string>, k: nat)
    requires k < |lines| && !LineOk(lines[k]) && forall i :: 0 <= i < k ==> LineOk(lines[i])
    ensures Parsed(lines) == Err(if Size(lines[k]) >= 65536 then TooLong else InvalidSerial)
    decreases k
  {
    hide Means, Size, Text;
    if k == 0 {
    } else {
      assert forall i :: 0 <= i < k - 1 ==> lines[1..][i] == lines[i + 1];
      FirstBadLineDecides(lines[1..], k - 1);
    }
  }

  // ---- writing -----------------------------------------------------------------------------

  /** The text of serials, a line each. */
  function Rendered(serials: seq<string>): string {
    if serials == [] then "" else serials[0] + "\n" + Rendered(serials[1..])
  }

  /** Lexicographic order of strings. */
  predicate Less(s: string, t: string) {
    if s == "" then t != "" else t != "" && (s[0] < t[0] || (s[0] == t[0] && Less(s[1..], t[1..])))
  }

  /** `order` is slices.Sorted of the keys. */
  ghost predicate SortedKeys(order: seq<string>, keys: set<string>) {
    (forall i, j :: 0 <= i < j < |order| ==> Less(order[i], order[j])) && (forall t :: t in order <==> t in keys)
  }

  /** The builder's loop; the sorted keys come from the library, the file system is left out. */
  method WriteRevokedSerials(order: seq<string>) returns (text: string)
    ensures text == Rendered(order)
  {
    text := "";
    assert order[0..] == order;
    for k := 0 to |order|
      invariant text + Rendered(order[k..]) == Rendered(order)
    {
      assert order[k..][1..] == order[k + 1..];
      text := text + order[k] + "\n";
    }
    assert text + "" == text;
  }

  /** The canonical texts of some serials. */
  function Texts(certs: seq<nat>): set<string> {
    if certs == [] then {} else Texts(certs[..|certs| - 1]) + {Text(certs[|certs| - 1], 16)}
  }

  lemma {:induction false} InTexts(certs: seq<nat>, t: string)
    ensures t in Texts(certs) <==> exists n: nat :: n in certs && t == Text(n, 16)
  {
    hide Text;
    if certs == [] {
    } else {
      var init, last := certs[..|certs| - 1], certs[|certs| - 1];
      assert certs == init + [last];
      InTexts(init, t);
      assert forall n :: n in certs <==> n in init || n == last;
      assert t == Text(last, 16) ==> last in certs;
    }
  }

  lemma SerialInTexts(certs: seq<nat>, n: nat)
    ensures Text(n, 16) in Texts(certs) <==> n in certs
  {
    InTexts(certs, Text(n, 16));
    hide Text, Texts;
    if m: nat :| m in certs && Text(n, 16) == Text(m, 16) { TextIsInjective(m, n, 16); }
  }

  /** RevokedSerials: the serials of the certificates in the revoked directory, as text. */
  method SerialTexts(certs: seq<nat>) returns (serials: set<string>)
    ensures serials == Texts(certs)
  {
    serials := {};
    for k := 0 to |certs|
      invariant serials == Texts(certs[..k])
    {
      assert certs[..k + 1][..k] == certs[..k];
      serials := serials + {Text(certs[k], 16)};
    }
    assert certs[..|certs|] == certs;
  }

  lemma LineThenRest(first: string, rest: string)
    requires !Has(first, '\n')
    ensures Lines(first + "\n" + rest) == [first] + Lines(rest)
  {
    var s := first + "\n" + rest;
    assert s[|first|] == '\n' && forall j :: 0 <= j < |first| ==> s[j] == first[j];
    assert IndexOf(s, '\n') == |first|;
    assert s[..|first|] == first && s[|first| + 1..] == rest;
  }

  lemma {:induction false} LinesOfRendered(serials: seq<string>)
    requires forall i :: 0 <= i < |serials| ==> !Has(serials[i], '\n')
    ensures Lines(Rendered(serials)) == serials
  {
    hide Has;
    if serials == [] {
    } else {
      LineThenRest(serials[0], Rendered(serials[1..]));
      LinesOfRendered(serials[1..]);
      hide Lines;
      assert [serials[0]] + serials[1..] == serials;
    }
  }

  lemma LastLine(last: string)
    requires !Has(last, '\n')
    ensures Lines(last) == if last == "" then [] else [last]
  {
  }

  /** The lines of a text are what stands between its newlines; a last one needs none behind it. */
  lemma {:induction false} LinesIff(lines: seq<string>, last: string)
    requires (forall i :: 0 <= i < |lines| ==> !Has(lines[i], '\n')) && !Has(last, '\n')
    ensures Lines(Rendered(lines) + last) == lines + if last == "" then [] else [last]
  {
    hide Has;
    if lines == [] {
      LastLine(last);
      assert Rendered(lines) + last == last;
    } else {
      var rest := Rendered(lines[1..]) + last;
      assert Rendered(lines) + last == lines[0] + "\n" + rest;
      LineThenRest(lines[0], rest);
      LinesIff(lines[1..], last);
      hide Lines, Rendered;
      assert lines == [lines[0]] + lines[1..];
    }
  }

  lemma {:induction false} SizeOfDigits(s: string)
    requires AllDigits(s, 16)
    ensures Size(s) == |s| && !Has(s, '\n')
  {
    if s == "" {
    } else {
      assert Digit(s[0]) < 16;
      SizeOfDigits(s[1..]);
    }
  }

  /** A canonical line is accepted exactly when its serial is positive and it fits the scanner's buffer. */
  lemma CanonicalLine(n: nat)
    ensures var t := Text(n, 16); !Has(t, '\n') && (LineOk(t) <==> n > 0 && |t| < MAX_TOKEN) && (n > 0 ==> Means(t) == Serial(n))
  {
    var t := Text(n, 16);
    SizeOfDigits(t);
    DigitsMean(t);
    ValueOfText(n, 16);
    hide Means, Text, TrimSpace, DropCR, Size, Value, AllDigits;
  }

  ghost predicate Acceptable(n: nat) { n > 0 && |Text(n, 16)| < MAX_TOKEN }

  /** The keys of the map of revoked serials, in some order. */
  ghost predicate Exports(order: seq<string>, certs: seq<nat>) {
    forall t :: t in order <==> t in Texts(certs)
  }

  lemma ExportedLine(certs: seq<nat>, order: seq<string>, i: nat) returns (n: nat)
    requires Exports(order, certs) && i < |order|
    ensures n in certs && order[i] == Text(n, 16) && !Has(order[i], '\n') && (LineOk(order[i]) <==> Acceptable(n))
    ensures n > 0 ==> Means(order[i]) == Serial(n)
  {
    assert order[i] in order;
    InTexts(certs, order[i]);
    hide Text, Means, Has, LineOk, Texts;
    n :| n in certs && order[i] == Text(n, 16);
    CanonicalLine(n);
  }

  lemma ExportSays(certs: seq<nat>, order: seq<string>, n: nat)
    requires Exports(order, certs) && AllOk(order)
    ensures n in certs <==> Says(order, n)
  {
    hide Text, Means, Has, Readable;
    if n in certs {
      SerialInTexts(certs, n);
      hide Texts;
      var i :| 0 <= i < |order| && order[i] == Text(n, 16);
      CanonicalLine(n);
      assert LineOk(order[i]);
    }
    if Says(order, n) {
      hide Texts;
      var i :| 0 <= i < |order| && Means(order[i]) == Serial(n);
      var m := ExportedLine(certs, order, i);
      assert LineOk(order[i]);
    }
  }

  lemma OkLineIsAcceptable(certs: seq<nat>, order: seq<string>, n: nat)
    requires Exports(order, certs) && n in certs
    ensures AllOk(order) ==> Acceptable(n)
  {
    SerialInTexts(certs, n);
    hide Text, Texts, Means, Readable;
    var i :| 0 <= i < |order| && order[i] == Text(n, 16);
    CanonicalLine(n);
  }

  /**
   The list written for the revoked certificates `certs`, in whatever order its keys come out,
   is read back as exactly their serials; and it is read at all if and only if each is acceptable.
   */
  lemma ExportIsReadBackIff(certs: seq<nat>, order: seq<string>)
    requires Exports(order, certs)
    ensures Parsed(Lines(Rendered(order))).Ok? <==> forall n :: n in certs ==> Acceptable(n)
    ensures Parsed(Lines(Rendered(order))).Ok? ==> Parsed(Lines(Rendered(order))).value == Texts(certs)
  {
    hide Text, Means, Readable, Lines, Rendered, Has, Parsed, LineOk, Acceptable, Exports, Texts, Says;
    forall i | 0 <= i < |order|
      ensures !Has(order[i], '\n') && exists n: nat :: n in certs && (LineOk(order[i]) <==> Acceptable(n))
      ensures (forall n :: n in certs ==> Acceptable(n)) ==> LineOk(order[i])
    {
      var n := ExportedLine(certs, order, i);
    }
    LinesOfRendered(order);
    ParsedIff(order);
    forall n: nat | n in certs ensures AllOk(order) ==> Acceptable(n) { OkLineIsAcceptable(certs, order, n); }
    if AllOk(order) {
      forall t ensures t in Parsed(order).value <==> t in Texts(certs) {
        InTexts(certs, t);
        forall n: nat ensures n in certs <==> Says(order, n) { ExportSays(certs, order, n); }
      }
      assert Parsed(order).value == Texts(certs);
    }
  }

  /** After the trip a certificate's serial is in the set exactly when that certificate was revoked. */
  lemma RevokedIffListed(certs: seq<nat>, order: seq<string>, n: nat)
    requires Exports(order, certs) && forall m :: m in certs ==> Acceptable(m)
    ensures Parsed(Lines(Rendered(order))).Ok?
    ensures Text(n, 16) in Parsed(Lines(Rendered(order))).value <==> n in certs
  {
    hide Text, Parsed, Lines, Rendered, Acceptable, Exports, Texts;
    ExportIsReadBackIff(certs, order);
    SerialInTexts(certs, n);
  }

  // ---- drawing a serial --------------------------------------------------------------------

  const SERIAL_LIMIT := 0x1_0000_0000_0000_0000_0000_0000_0000_0000

  /** newSerial: a draw below 2^128 - 1, plus one. */
  function NewSerial(draw: nat): nat
    requires draw < SERIAL_LIMIT - 1
  {
    draw + 1
  }

  lemma {:induction false} TextIsShort(n: nat, k: nat)
    requires n < Pow(16, k) && k > 0
    ensures |Text(n, 16)| <= k
    decreases k
  {
    if n < 16 {
    } else {
      TextIsShort(n / 16, k - 1);
    }
  }

  /** Every serial newSerial can draw is positive, below the limit, and accepted on a list. */
  lemma DrawnSerialIsAcceptable(draw: nat)
    requires draw < SERIAL_LIMIT - 1
    ensures 0 < NewSerial(draw) < SERIAL_LIMIT && Acceptable(NewSerial(draw))
  {
    assert Pow(16, 32) == SERIAL_LIMIT by {
      assert Pow(16, 8) == 0x1_0000_0000;
      assert Pow(16, 16) == 0x1_0000_0000_0000_0000;
      assert Pow(16, 24) == 0x1_0000_0000_0000_0000_0000_0000;
    }
    TextIsShort(NewSerial(draw), 32);
  }

  lemma {:induction false} TextOfPower(k: nat)
    ensures |Text(Pow(16, k), 16)| == k + 1
  {
    if k == 0 {
    } else {
      TextOfPower(k - 1);
      assert Pow(16, k) == 16 * Pow(16, k - 1);
      assert Pow(16, k) / 16 == Pow(16, k - 1);
      PowIsPositive(16, k - 1);
    }
  }

  /** A revoked certificate with serial zero, or with one of 65536 digits, makes the whole list unreadable. */
  lemma OneBadSerialSpoilsTheList(certs: seq<nat>, order: seq<string>)
    requires Exports(order, certs) && (0 in certs || Pow(16, MAX_TOKEN - 1) in certs)
    ensures Parsed(Lines(Rendered(order))).Err?
  {
    hide Pow, Text, Parsed, Lines, Rendered, Exports;
    ExportIsReadBackIff(certs, order);
    TextOfPower(MAX_TOKEN - 1);
  }

  lemma {:induction false} LessIsStrict(s: string, t: string)
    ensures !(Less(s, t) && Less(t, s)) && !Less(s, s)
  {
    if s == "" {
    } else {
      LessIsStrict(s[1..], s[1..]);
      if t != "" { LessIsStrict(s[1..], t[1..]); }
    }
  }

  /** The order of strings: a proper prefix comes first, and otherwise the first difference decides. */
  lemma {:induction false} LessIff(s: string, t: string)
    ensures Less(s, t) <==>
            || (|s| < |t| && s == t[..|s|])
            || exists i :: 0 <= i < |s| && i < |t| && s[..i] == t[..i] && s[i] < t[i]
  {
    if s == "" || t == "" || s[0] != t[0] {
      if s != "" && t != "" && s[0] < t[0] { assert s[..0] == t[..0] && s[0] < t[0]; }
      forall i | 0 < i <= |s| && i <= |t| && s[0] != t[0] ensures s[..i] != t[..i] {
        assert s[..i][0] == s[0] && t[..i][0] == t[0];
      }
    } else {
      var u, v := s[1..], t[1..];
      LessIff(u, v);
      if |u| < |v| && u == v[..|u|] { assert s == [s[0]] + u && t[..|s|] == [t[0]] + v[..|u|]; }
      if |s| < |t| && s == t[..|s|] { assert u == v[..|u|]; }
      if i :| 0 <= i < |u| && i < |v| && u[..i] == v[..i] && u[i] < v[i] {
        assert s[..i + 1] == [s[0]] + u[..i] && t[..i + 1] == [t[0]] + v[..i] && s[i + 1] < t[i + 1];
      }
      if i :| 0 <= i < |s| && i < |t| && s[..i] == t[..i] && s[i] < t[i] {
        assert u[..i - 1] == s[..i][1..] && v[..i - 1] == t[..i][1..] && u[i - 1] < v[i - 1];
      }
    }
  }

  lemma FirstIsLeast(a: seq<string>, b: seq<string>, keys: set<string>)
    requires SortedKeys(a, keys) && SortedKeys(b, keys) && a != [] && b != []
    ensures a[0] == b[0]
  {
    hide Less;
    assert a[0] in b && b[0] in a;
    var i :| 0 <= i < |b| && b[i] == a[0];
    var j :| 0 <= j < |a| && a[j] == b[0];
    LessIsStrict(a[0], b[0]);
  }

  lemma RestIsSorted(a: seq<string>, keys: set<string>)
    requires SortedKeys(a, keys) && a != []
    ensures SortedKeys(a[1..], keys - {a[0]})
  {
    hide Less;
    var rest := a[1..];
    assert a == [a[0]] + rest;
    LessIsStrict(a[0], a[0]);
    assert forall i :: 0 <= i < |rest| ==> rest[i] == a[i + 1];
    forall t ensures t in rest <==> t in keys && t != a[0] {
      if t in rest {
        var i :| 0 <= i < |rest| && rest[i] == t;
        assert Less(a[0], a[i + 1]);
      }
    }
  }

  /** The keys have one sorted order, so the text does not depend on the map's. */
  lemma {:induction false} SortedOrderIsUnique(a: seq<string>, b: seq<string>, keys: set<string>)
    requires SortedKeys(a, keys) && SortedKeys(b, keys)
    ensures a == b
  {
    assert b != [] ==> b[0] in a;
    if a == [] {
    } else {
      assert a[0] in b;
      FirstIsLeast(a, b, keys);
      RestIsSorted(a, keys);
      RestIsSorted(b, keys);
      SortedOrderIsUnique(a[1..], b[1..], keys - {a[0]});
    }
  }
}
