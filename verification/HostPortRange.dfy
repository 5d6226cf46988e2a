/**
 Port ranges as text (internal/hostport.go): "host:port" and "host:first-last".

 The address library is a parameter: parsing and printing of IP literals, with the one law
 that what it parsed prints to something it parses back. The rest, down to the splitting of
 host from port and the 16-bit sum in At, is written out.
 */
module HostPortRange {
  import opened Common
  import opened Strings
  import opened Numerals

  // ---- splitting and joining host and port -------------------------------------------------

  /** net.SplitHostPort; None for each of its address errors. */
  function SplitHostPort(s: string): Option<(string, string)> {
    var i := LastIndexOf(s, ':');
    if i < 0 then None
    else if s[0] == '[' then
      var end := IndexOf(s, ']');
      if end + 1 != i then None
      else if Has(s[1..], '[') || Has(s[end + 1..], ']') then None
      else Some((s[1..end], s[i + 1..]))
    else if Has(s[..i], ':') || Has(s, '[') || Has(s, ']') then None
    else Some((s[..i], s[i + 1..]))
  }

  /** net.JoinHostPort. */
  function JoinHostPort(host: string, port: string): string {
    if Has(host, ':') then "[" + host + "]:" + port else host + ":" + port
  }

  predicate Unbracketed(s: string) { !Has(s, '[') && !Has(s, ']') }

  lemma SplitGivesUnbracketedHost(s: string)
    requires SplitHostPort(s).Some?
    ensures Unbracketed(SplitHostPort(s).value.0)
  {
    var i := LastIndexOf(s, ':');
    var host := SplitHostPort(s).value.0;
    if s[0] == '[' {
      var tail := s[1..];
      assert forall k :: 0 <= k < |host| ==> host[k] == s[k + 1] == tail[k];
    }
  }

  lemma LastColon(head: string, port: string)
    requires !Has(port, ':')
    ensures var s := head + ":" + port;
            LastIndexOf(s, ':') == |head| && s[|head|] == ':' && s[..|head|] == head && s[|head| + 1..] == port
  {
    var s := head + ":" + port;
    forall j | |head| < j < |s| ensures s[j] != ':' { assert s[j] == port[j - |head| - 1]; }
    assert s[|head|] == ':';
  }

  lemma FirstClosingBracket(host: string, rest: string)
    requires !Has(host, ']')
    ensures var s := "[" + host + "]" + rest;
            IndexOf(s, ']') == |host| + 1 && s[1..|host| + 1] == host
  {
    var s := "[" + host + "]" + rest;
    forall j | 0 <= j < |host| + 1 ensures s[j] != ']' {
      if j > 0 { assert s[j] == host[j - 1]; }
    }
    assert s[|host| + 1] == ']';
  }

  lemma NoneInBoth(a: string, b: string, c: char)
    requires !Has(a, c) && !Has(b, c)
    ensures !Has(a + b, c)
  {
    forall i | 0 <= i < |a + b| ensures (a + b)[i] != c {
      assert (a + b)[i] == if i < |a| then a[i] else b[i - |a|];
    }
  }

  /** Behind the first bracket there is no other '[', and behind the last one no other ']'. */
  lemma NoFurtherBracket(host: string, port: string)
    requires Unbracketed(host) && Unbracketed(port)
    ensures !Has(host + ("]:" + port), '[') && !Has(":" + port, ']')
  {
    assert !Has("]:", '[') && !Has(":", ']');
    hide Has;
    NoneInBoth("]:", port, '[');
    NoneInBoth(host, "]:" + port, '[');
    NoneInBoth(":", port, ']');
  }

  lemma SplitOfBracketed(host: string, port: string)
    requires Unbracketed(host) && Unbracketed(port) && !Has(port, ':')
    ensures SplitHostPort("[" + host + "]:" + port) == Some((host, port))
  {
    LastColon("[" + host + "]", port);
    FirstClosingBracket(host, ":" + port);
    NoFurtherBracket(host, port);
    hide Has, IndexOf, LastIndexOf;
    var s := "[" + host + "]:" + port;
    assert s == "[" + host + "]" + ":" + port == "[" + host + "]" + (":" + port);
    assert s[1..] == host + ("]:" + port);
    assert s[|host| + 2..] == ":" + port;
  }

  lemma SplitOfJoin(host: string, port: string)
    requires Unbracketed(host) && Unbracketed(port) && !Has(port, ':')
    ensures SplitHostPort(JoinHostPort(host, port)) == Some((host, port))
  {
    if Has(host, ':') {
      SplitOfBracketed(host, port);
    } else {
      LastColon(host, port);
    }
  }

  lemma NoneInSlice(s: string, i: nat, j: nat, c: char)
    requires i <= j <= |s| && forall k :: i <= k < j ==> s[k] != c
    ensures !Has(s[i..j], c)
  {
  }

  lemma NoneInWhole(s: string, i: nat, j: nat, c: char)
    requires i <= j <= |s| && !Has(s, c)
    ensures forall k :: i <= k < j ==> s[k] != c
  {
  }

  lemma NoneInTail(s: string, i: nat, j: nat, c: char)
    requires i <= j <= |s| && !Has(s[i..], c)
    ensures forall k :: j <= k < |s| ==> s[k] != c
  {
    forall k | j <= k < |s| ensures s[k] != c { assert s[i..][k - i] == s[k]; }
  }

  lemma SplitIsJoin(s: string)
    requires SplitHostPort(s).Some?
    ensures var (host, port) := SplitHostPort(s).value;
            && Unbracketed(port) && !Has(port, ':')
            && (s == "[" + host + "]:" + port || (s == host + ":" + port && !Has(host, ':')))
  {
    var i := LastIndexOf(s, ':');
    var port := s[i + 1..];
    assert s[i + 1..|s|] == port;
    NoneInSlice(s, i + 1, |s|, ':');
    if s[0] == '[' {
      var end := IndexOf(s, ']');
      NoneInTail(s, 1, i + 1, '[');
      NoneInTail(s, end + 1, i + 1, ']');
      NoneInSlice(s, i + 1, |s|, '[');
      NoneInSlice(s, i + 1, |s|, ']');
      assert s == "[" + s[1..end] + "]:" + port;
    } else {
      NoneInWhole(s, i + 1, |s|, '[');
      NoneInWhole(s, i + 1, |s|, ']');
      NoneInSlice(s, i + 1, |s|, '[');
      NoneInSlice(s, i + 1, |s|, ']');
      assert s == s[..i] + ":" + port;
    }
  }

  /**
   Which texts split, and into what: a host without brackets or colons before the colon, or one
   without brackets inside a pair of them, and a port with none of the three.
   */
  lemma SplitIff(s: string, host: string, port: string)
    ensures SplitHostPort(s) == Some((host, port)) <==>
            && Unbracketed(host) && Unbracketed(port) && !Has(port, ':')
            && (s == "[" + host + "]:" + port || (s == host + ":" + port && !Has(host, ':')))
  {
    if SplitHostPort(s) == Some((host, port)) {
      SplitGivesUnbracketedHost(s);
      SplitIsJoin(s);
    }
    if Unbracketed(host) && Unbracketed(port) && !Has(port, ':') {
      SplitOfBracketed(host, port);
      if !Has(host, ':') {
        SplitOfJoin(host, port);
        assert JoinHostPort(host, port) == host + ":" + port;
      }
    }
    hide SplitHostPort, Has;
  }

  // ---- addresses and ranges ----------------------------------------------------------------

  type Port = p: int | 0 <= p < 65536

  datatype Host = IP(ip: nat) | Named(name: string)

  datatype HostPort = HostPort(host: Host, port: Port)

  datatype Range = Range(base: HostPort, count: int)

  datatype Error = ErrInvalidHostPort | ErrInvalidRange

  const MAX_PORTS := 1024

  /** netip.ParseAddr and Addr.String, on addresses numbered in some way. */
  datatype Addresses = Addresses(parse: string -> Option<nat>, render: nat -> string) {
    /** What was parsed prints to text that parses to the same address, and has no bracket of its own. */
    ghost predicate Lawful() {
      forall h :: Unbracketed(h) && parse(h).Some? ==>
        Unbracketed(render(parse(h).value)) && parse(render(parse(h).value)) == parse(h)
    }
  }

  function ParsePort(s: string): Result<Port, Error> {
    if s != "" && AllDigits(s, 10) && Value(s, 10) < 65536 then Ok(Value(s, 10)) else Err(ErrInvalidHostPort)
  }

  function ParsePortSpan(s: string): Result<(Port, Port), Error> {
    var cut := IndexOf(s, '-');
    var first := ParsePort(s[..cut]);
    if first.Err? then Err(first.error)
    else if cut == |s| then Ok((first.value, first.value))
    else
      var last := ParsePort(s[cut + 1..]);
      if last.Err? then Err(last.error)
      else if first.value == 0 then Err(ErrInvalidRange)
      else if last.value < first.value then Err(ErrInvalidRange)
      else if last.value - first.value + 1 > MAX_PORTS then Err(ErrInvalidRange)
      else Ok((first.value, last.value))
  }

  function NewHostPort(lib: Addresses, host: string, port: Port): Result<HostPort, Error> {
    var ip := lib.parse(host);
    if ip.Some? then Ok(HostPort(IP(ip.value), port))
    else if host == "" || Has(host, ' ') || Has(host, '\t') then Err(ErrInvalidHostPort)
    else Ok(HostPort(Named(host), port))
  }

  function ParseRange(lib: Addresses, s: string): Result<Range, Error> {
    var split := SplitHostPort(s);
    if split.None? then Err(ErrInvalidHostPort)
    else
      var span := ParsePortSpan(split.value.1);
      if span.Err? then Err(span.error)
      else
        var base := NewHostPort(lib, split.value.0, span.value.0);
        if base.Err? then Err(base.error) else Ok(Range(base.value, span.value.1 - span.value.0 + 1))
  }

  /** Range.At: the sum is the 16-bit one. */
  function At(r: Range, i: int): Option<HostPort> {
    if i < 0 || i >= r.count then None
    else Some(r.base.(port := (r.base.port + i % 65536) % 65536))
  }

  function HostText(lib: Addresses, h: Host): string {
    match h
    case IP(ip) => lib.render(ip)
    case Named(name) => name
  }

  function HostPortText(lib: Addresses, h: HostPort): string {
    JoinHostPort(HostText(lib, h.host), Text(h.port, 10))
  }

  function RangeText(lib: Addresses, r: Range): string {
    if r.count <= 1 then HostPortText(lib, r.base)
    else
      var last := At(r, r.count - 1);
      HostPortText(lib, r.base) + "-" + Text(if last.Some? then last.value.port else 0, 10)
  }

  // ---- what a parsed range is --------------------------------------------------------------

  /** The ports of a range all exist, and a run of several does not start at the "any port" port. */
  predicate Proper(r: Range) {
    1 <= r.count <= MAX_PORTS && r.base.port + r.count <= 65536 && (r.count > 1 ==> r.base.port > 0)
  }

  /** A host that NewHostPort can return for some unbracketed text. */
  ghost predicate ParsedHost(lib: Addresses, h: Host) {
    exists t :: Unbracketed(t) && NewHostPort(lib, t, 0).Ok? && NewHostPort(lib, t, 0).value.host == h
  }

  lemma ParsedRangeIsProper(lib: Addresses, s: string)
    requires ParseRange(lib, s).Ok?
    ensures Proper(ParseRange(lib, s).value) && ParsedHost(lib, ParseRange(lib, s).value.base.host)
  {
    SplitGivesUnbracketedHost(s);
    var t := SplitHostPort(s).value.0;
    var r := ParseRange(lib, s).value;
    assert NewHostPort(lib, t, 0).value.host == r.base.host;
  }

  /** At answers exactly on the range, with the port that many after the first and no wrap-around. */
  lemma AtIsExact(r: Range, i: int)
    requires Proper(r)
    ensures At(r, i).Some? <==> 0 <= i < r.count
    ensures At(r, i).Some? ==> At(r, i).value.port == r.base.port + i && At(r, i).value.host == r.base.host
  {
  }

  /** Two ranges of one length correspond port for port: each index names one port on either side, and no port twice. */
  lemma EqualRangesCorrespond(a: Range, b: Range, i: int, j: int)
    requires Proper(a) && Proper(b) && a.count == b.count
    ensures At(a, i).Some? <==> At(b, i).Some?
    ensures At(a, i).Some? && At(a, j).Some? ==>
              ((At(a, i) == At(a, j) <==> i == j) && (At(b, i) == At(b, j) <==> i == j))
  {
    AtIsExact(a, i);
    AtIsExact(a, j);
    AtIsExact(b, i);
    AtIsExact(b, j);
  }

  // ---- what is refused, and for what -------------------------------------------------------

  predicate Decimal(s: string) { s != "" && forall i :: 0 <= i < |s| ==> '0' <= s[i] <= '9' }

  /** A port is a decimal number below 65536, whatever zeros it begins with. */
  lemma PortIff(s: string)
    ensures Decimal(s) <==> s != "" && AllDigits(s, 10)
    ensures ParsePort(s) == if Decimal(s) && Value(s, 10) < 65536 then Ok(Value(s, 10)) else Err(ErrInvalidHostPort)
  {
    if AllDigits(s, 10) {
      forall i | 0 <= i < |s| ensures '0' <= s[i] <= '9' { assert Digit(s[i]) < 10; }
    }
  }

  lemma DashIsCut(f: string, l: string)
    requires !Has(f, '-')
    ensures IndexOf(f, '-') == |f|
    ensures var s := f + "-" + l; IndexOf(s, '-') == |f| && s[..|f|] == f && s[|f| + 1..] == l
  {
    var s := f + "-" + l;
    assert s[|f|] == '-';
    forall j | 0 <= j < |f| ensures s[j] != '-' { assert s[j] == f[j]; }
  }

  /**
   The port half of a range: a lone port is itself; "first-last" is accepted exactly when both
   are ports, the first is not 0, they do not run backwards, and they span at most 1024; what is
   not a port is an invalid host:port, and the other three are an invalid range.
   */
  lemma SpanIff(first: string, last: string)
    requires !Has(first, '-')
    ensures ParsePort(first).Ok? ==> ParsePortSpan(first) == Ok((ParsePort(first).value, ParsePort(first).value))
    ensures ParsePort(first).Err? ==> ParsePortSpan(first) == Err(ErrInvalidHostPort)
    ensures var f, l := ParsePort(first), ParsePort(last);
            ParsePortSpan(first + "-" + last) ==
            if f.Err? || l.Err? then Err(ErrInvalidHostPort)
            else if f.value == 0 || l.value < f.value || l.value - f.value >= 1024 then Err(ErrInvalidRange)
            else Ok((f.value, l.value))
  {
    DashIsCut(first, last);
    assert ParsePort(first).Err? ==> ParsePort(first).error == ErrInvalidHostPort;
    assert ParsePort(last).Err? ==> ParsePort(last).error == ErrInvalidHostPort;
    hide ParsePort, Has, IndexOf;
    assert first[..|first|] == first;
  }

  /** A host is an address, or any other text that is not empty and has no space or tab in it. */
  lemma HostIff(lib: Addresses, host: string, port: Port)
    ensures NewHostPort(lib, host, port) ==
            if lib.parse(host).Some? then Ok(HostPort(IP(lib.parse(host).value), port))
            else if host != "" && forall i :: 0 <= i < |host| ==> host[i] != ' ' && host[i] != '\t'
            then Ok(HostPort(Named(host), port)) else Err(ErrInvalidHostPort)
  {
  }

  /** `s` is host and port as text. */
  ghost predicate Splits(s: string, host: string, port: string) {
    && Unbracketed(host) && Unbracketed(port) && !Has(port, ':')
    && (s == "[" + host + "]:" + port || (s == host + ":" + port && !Has(host, ':')))
  }

  /** `s` is a decimal number below 65536, `p`. */
  predicate IsPort(s: string, p: Port) {
    Decimal(s) && AllDigits(s, 10) && Value(s, 10) == p
  }

  /** `s` is the port `f` alone, or a run of at most 1024 ports from `f`, which is not 0, to `l`. */
  ghost predicate Spans(s: string, f: Port, l: Port) {
    || (IsPort(s, f) && f == l)
    || exists a, b :: s == a + "-" + b && IsPort(a, f) && IsPort(b, l) && 0 < f <= l < f + 1024
  }

  /** `s` is the host `h`: the address it parses to, or a name. */
  predicate IsHost(lib: Addresses, s: string, h: Host) {
    if lib.parse(s).Some? then h == IP(lib.parse(s).value)
    else h == Named(s) && s != "" && forall i :: 0 <= i < |s| ==> s[i] != ' ' && s[i] != '\t'
  }

  lemma DecimalHasNoDash(s: string)
    requires Decimal(s)
    ensures !Has(s, '-')
  {
  }

  lemma PortIsPort(s: string, p: Port)
    ensures ParsePort(s) == Ok(p) <==> IsPort(s, p)
  {
    PortIff(s);
  }

  lemma SpanIsSpan(s: string, f: Port, l: Port)
    ensures ParsePortSpan(s) == Ok((f, l)) <==> Spans(s, f, l)
  {
    var cut := IndexOf(s, '-');
    var head := s[..cut];
    PortIsPort(head, f);
    if cut < |s| {
      assert s == head + "-" + s[cut + 1..];
      PortIsPort(s[cut + 1..], l);
    } else {
      assert head == s;
    }
    if IsPort(s, f) && f == l {
      DecimalHasNoDash(s);
      SpanIff(s, "");
      PortIsPort(s, f);
    }
    if a, b :| s == a + "-" + b && IsPort(a, f) && IsPort(b, l) && 0 < f <= l < f + 1024 {
      DecimalHasNoDash(a);
      SpanIff(a, b);
      PortIsPort(a, f);
      PortIsPort(b, l);
    }
    hide ParsePort, IsPort, Has, IndexOf;
  }

  /** Range `r` stands in `s`, as this host, these ports, and this last one. */
  ghost predicate Stands(lib: Addresses, s: string, r: Range, host: string, ports: string, last: Port) {
    && Splits(s, host, ports) && IsHost(lib, host, r.base.host)
    && Spans(ports, r.base.port, last) && r.count == last - r.base.port + 1
  }

  lemma ParsedStands(lib: Addresses, s: string) returns (host: string, ports: string, last: Port)
    requires ParseRange(lib, s).Ok?
    ensures Stands(lib, s, ParseRange(lib, s).value, host, ports, last)
  {
    host, ports := SplitHostPort(s).value.0, SplitHostPort(s).value.1;
    var f := ParsePortSpan(ports).value.0;
    last := ParsePortSpan(ports).value.1;
    SplitIff(s, host, ports);
    SpanIsSpan(ports, f, last);
    HostIff(lib, host, f);
    hide SplitHostPort, ParsePortSpan, NewHostPort, Spans, Has;
  }

  lemma StandingParses(lib: Addresses, s: string, r: Range, host: string, ports: string, last: Port)
    requires Stands(lib, s, r, host, ports, last)
    ensures ParseRange(lib, s) == Ok(r)
  {
    SplitIff(s, host, ports);
    SpanIsSpan(ports, r.base.port, last);
    HostIff(lib, host, r.base.port);
    hide SplitHostPort, ParsePortSpan, NewHostPort, Spans, Has;
  }

  /**
   The whole of ParseRange over the characters of its argument: it gives `r` exactly when the
   argument splits into a host that is r's and a span from r's first port to its last.
   */
  lemma ParseRangeIff(lib: Addresses, s: string, r: Range)
    ensures ParseRange(lib, s) == Ok(r) <==> exists host, ports, last :: Stands(lib, s, r, host, ports, last)
  {
    hide ParseRange, Stands;
    if ParseRange(lib, s) == Ok(r) {
      var host, ports, last := ParsedStands(lib, s);
    }
    if host, ports, last :| Stands(lib, s, r, host, ports, last) { StandingParses(lib, s, r, host, ports, last); }
  }

  lemma PortRoundTrip(p: Port)
    ensures ParsePort(Text(p, 10)) == Ok(p)
  {
    ValueOfText(p, 10);
  }

  lemma DigitsAreUnbracketed(s: string)
    requires AllDigits(s, 10)
    ensures Unbracketed(s) && !Has(s, ':') && !Has(s, '-') && IndexOf(s, '-') == |s|
  {
    assert Digit('[') == Digit(']') == Digit(':') == Digit('-') == 16;
  }

  /** "f-l" is cut at its dash, and has nothing that would confuse the split of host from port. */
  lemma SpanTextIsCut(f: string, l: string)
    requires AllDigits(f, 10) && AllDigits(l, 10)
    ensures var s := f + "-" + l;
            Unbracketed(s) && !Has(s, ':') && IndexOf(s, '-') == |f| && s[..|f|] == f && s[|f| + 1..] == l
  {
    DigitsAreUnbracketed(f);
    DigitsAreUnbracketed(l);
    var s := f + "-" + l;
    assert forall i :: 0 <= i < |s| ==> s[i] == if i < |f| then f[i] else if i == |f| then '-' else l[i - |f| - 1];
    assert s[|f|] == '-';
    assert !Has(s, '[') && !Has(s, ']') && !Has(s, ':');
    assert IndexOf(s, '-') == |f|;
    assert s[..|f|] == f;
    assert s[|f| + 1..] == l;
  }

  lemma SpanRoundTrip(first: Port, last: Port)
    requires first <= last && last - first < MAX_PORTS && (first < last ==> first > 0)
    ensures var s := if first == last then Text(first, 10) else Text(first, 10) + "-" + Text(last, 10);
            ParsePortSpan(s) == Ok((first, last)) && Unbracketed(s) && !Has(s, ':')
  {
    PortRoundTrip(first);
    PortRoundTrip(last);
    hide Text, Has, ParsePort, IndexOf;
    var f, l := Text(first, 10), Text(last, 10);
    DigitsAreUnbracketed(f);
    SpanTextIsCut(f, l);
    assert f[..|f|] == f;
  }

  lemma HostRoundTrip(lib: Addresses, h: Host, port: Port)
    requires lib.Lawful() && ParsedHost(lib, h)
    ensures Unbracketed(HostText(lib, h)) && NewHostPort(lib, HostText(lib, h), port) == Ok(HostPort(h, port))
  {
    var t :| Unbracketed(t) && NewHostPort(lib, t, 0).Ok? && NewHostPort(lib, t, 0).value.host == h;
  }

  /** The port half of a range's text. */
  function SpanText(r: Range): string {
    if r.count <= 1 then Text(r.base.port, 10)
    else Text(r.base.port, 10) + "-" + Text((r.base.port + r.count - 1) % 65536, 10)
  }

  lemma JoinThenAppend(host: string, port: string, more: string)
    ensures JoinHostPort(host, port) + more == JoinHostPort(host, port + more)
  {
  }

  lemma RangeTextIsJoined(lib: Addresses, r: Range)
    requires Proper(r)
    ensures RangeText(lib, r) == JoinHostPort(HostText(lib, r.base.host), SpanText(r))
  {
    AtIsExact(r, r.count - 1);
    hide Text, JoinHostPort, At;
    var host, f := HostText(lib, r.base.host), Text(r.base.port, 10);
    var l := Text((r.base.port + r.count - 1) % 65536, 10);
    JoinThenAppend(host, f, "-");
    JoinThenAppend(host, f + "-", l);
  }

  lemma JoinIs(host: string, port: string)
    ensures JoinHostPort(host, port) == (if ':' in host then "[" + host + "]" else host) + ":" + port
  {
    assert Has(host, ':') <==> ':' in host;
    hide Has;
    assert "[" + host + "]:" + port == ("[" + host + "]") + ":" + port;
  }

  /**
   How a proper range is printed: its host, in brackets exactly when there is a colon in it, a
   colon, the first port, and for several ports a dash and the last.
   */
  lemma TextIs(lib: Addresses, r: Range)
    requires Proper(r)
    ensures var host := match r.base.host case IP(ip) => lib.render(ip) case Named(name) => name;
            var first, last := Text(r.base.port, 10), Text(r.base.port + r.count - 1, 10);
            RangeText(lib, r) == (if ':' in host then "[" + host + "]" else host) + ":" + (if r.count == 1 then first else first + "-" + last)
  {
    hide Text, RangeText, JoinHostPort, Has;
    RangeTextIsJoined(lib, r);
    JoinIs(HostText(lib, r.base.host), SpanText(r));
  }

  /** A proper range's text parses back to it. */
  lemma TextParsesBack(lib: Addresses, r: Range)
    requires lib.Lawful() && Proper(r) && ParsedHost(lib, r.base.host)
    ensures ParseRange(lib, RangeText(lib, r)) == Ok(r)
  {
    hide Text, Has, ParsePortSpan, SplitHostPort, NewHostPort, ParsedHost, Addresses.Lawful, JoinHostPort, RangeText, HostText;
    RangeTextIsJoined(lib, r);
    HostRoundTrip(lib, r.base.host, r.base.port);
    SpanRoundTrip(r.base.port, r.base.port + r.count - 1);
    SplitOfJoin(HostText(lib, r.base.host), SpanText(r));
  }

  /** Whatever ParseRange accepts, printing it and parsing that gives the same range again. */
  lemma RangeRoundTrip(lib: Addresses, s: string)
    requires lib.Lawful() && ParseRange(lib, s).Ok?
    ensures ParseRange(lib, RangeText(lib, ParseRange(lib, s).value)) == ParseRange(lib, s)
  {
    ParsedRangeIsProper(lib, s);
    TextParsesBack(lib, ParseRange(lib, s).value);
  }

  /** Which ranges there are: exactly the proper ones on a host that parses, so no valid range is refused. */
  lemma ParsesToIff(lib: Addresses, r: Range)
    requires lib.Lawful()
    ensures (exists s :: ParseRange(lib, s) == Ok(r)) <==> Proper(r) && ParsedHost(lib, r.base.host)
  {
    forall s | ParseRange(lib, s) == Ok(r) ensures Proper(r) && ParsedHost(lib, r.base.host) { ParsedRangeIsProper(lib, s); }
    if Proper(r) && ParsedHost(lib, r.base.host) { TextParsesBack(lib, r); }
  }
}
