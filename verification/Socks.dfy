/** The SOCKS5 handshake. */
module Socks {
  // In both of its implementations. The reference is the grammar of sections 3, 4 and 6 of RFC 1928;
  // the code reads from a stream that holds some bytes and then ends, and writes to a stream that
  // accepts some bytes and then fails.

  import opened Common
  import Numeral
  import opened Wire

  const V5: byte := 0x05
  const CONNECT: byte := 0x01
  const ATYP_V4: byte := 0x01
  const ATYP_DOMAIN: byte := 0x03
  const ATYP_V6: byte := 0x04
  const SUCCEEDED: byte := 0x00
  const GENERAL_FAILURE: byte := 0x01
  const NOT_ALLOWED: byte := 0x02
  const CMD_NOT_SUPPORTED: byte := 0x07
  const ADDR_NOT_SUPPORTED: byte := 0x08

  // ---- RFC 1928 ---------------------------------------------------------------------------

  type port = p: int | 0 <= p < 0x1_0000

  datatype Address = V4(octets: seq<byte>) | Domain(name: seq<byte>) | V6(octets: seq<byte>)

  /** What the client asks: the methods it offers, a reserved byte, and where to connect. */
  datatype Request = Request(methods: seq<byte>, rsv: byte, address: Address, port: port)

  predicate AddressOk(a: Address) {
    match a
    case V4(octets) => |octets| == 4
    case Domain(name) => |name| < 256
    case V6(octets) => |octets| == 16
  }

  predicate WellFormed(r: Request) { |r.methods| < 256 && AddressOk(r.address) }

  function Greeting(methods: seq<byte>): seq<byte>
    requires |methods| < 256
  {
    [V5, |methods|] + methods
  }

  function Atyp(a: Address): byte {
    match a
    case V4(_) => ATYP_V4
    case Domain(_) => ATYP_DOMAIN
    case V6(_) => ATYP_V6
  }

  function AddressBytes(a: Address): seq<byte>
    requires AddressOk(a)
  {
    if a.Domain? then [|a.name|] + a.name else a.octets
  }

  function PortBytes(p: port): seq<byte> {
    [p / 256, p % 256]
  }

  function Header(methods: seq<byte>, cmd: byte, rsv: byte, atyp: byte): seq<byte>
    requires |methods| < 256
  {
    Greeting(methods) + [V5, cmd, rsv, atyp]
  }

  /** The client's side of a CONNECT, greeting and request together. */
  function Encode(r: Request): seq<byte>
    requires WellFormed(r)
  {
    Header(r.methods, CONNECT, r.rsv, Atyp(r.address)) + (AddressBytes(r.address) + PortBytes(r.port))
  }

  /** Section 6: a reply with the bound address 0.0.0.0:0. */
  function Reply(code: byte): seq<byte> {
    [V5, code, 0x00, ATYP_V4, 0, 0, 0, 0, 0, 0]
  }

  // ---- What the input asks for ------------------------------------------------------------

  /** `at` is the number of bytes the handshake consumes. */
  datatype Ask =
    | Truncated                              // the stream ended inside a field
    | NotSocks5                              // wrong version in the greeting
    | BadVersion(at: nat)                    // wrong version in the request
    | Refused(code: byte, at: nat)
    | Asked(request: Request, at: nat)

  /** End of a complete greeting. */
  function GreetingEnd(input: seq<byte>): Option<nat> {
    if |input| < 2 || input[0] != V5 || |input| < 2 + input[1] as int then None else Some(2 + input[1] as int)
  }

  function Understand(input: seq<byte>): Ask {
    if |input| >= 2 && input[0] != V5 then NotSocks5
    else if GreetingEnd(input).None? then Truncated
    else
      var g := GreetingEnd(input).value;
      if |input| < g + 4 then Truncated
      else if input[g] != V5 then BadVersion(g + 4)
      else if input[g + 1] != CONNECT then Refused(CMD_NOT_SUPPORTED, g + 4)
      else UnderstandAddress(input, g)
  }

  /** Where the address bytes are. */
  datatype Span = Span(from: nat, len: nat) | Missing | Unknown

  function AddressSpan(input: seq<byte>, g: nat): Span
    requires g <= |input| - 4
  {
    var atyp := input[g + 3];
    if atyp == ATYP_V4 then Span(g + 4, 4)
    else if atyp == ATYP_V6 then Span(g + 4, 16)
    else if atyp != ATYP_DOMAIN then Unknown
    else if |input| == g + 4 then Missing
    else Span(g + 5, input[g + 4])
  }

  function ToAddress(atyp: byte, octets: seq<byte>): Address {
    if atyp == ATYP_V4 then V4(octets) else if atyp == ATYP_V6 then V6(octets) else Domain(octets)
  }

  function ToPort(high: byte, low: byte): port {
    var h: int, l: int := high, low;
    h * 256 + l
  }

  /** The address and where it ends. */
  datatype Located = Got(address: Address, end: nat) | Short | Unsupported

  function Locate(input: seq<byte>, g: nat): (r: Located)
    requires g <= |input| - 4
    ensures r.Got? ==> AddressOk(r.address) && r.end <= |input|
  {
    var span := AddressSpan(input, g);
    if span.Unknown? then Unsupported
    else if span.Missing? || |input| < span.from + span.len then Short
    else Got(ToAddress(input[g + 3], input[span.from..span.from + span.len]), span.from + span.len)
  }

  function UnderstandAddress(input: seq<byte>, g: nat): (ask: Ask)
    requires 2 <= g <= |input| - 4
  {
    var r := Locate(input, g);
    if r.Unsupported? then Refused(ADDR_NOT_SUPPORTED, g + 4)
    else if r.Short? || |input| < r.end + 2 then Truncated
    else Asked(Request(input[2..g], input[g + 2], r.address, ToPort(input[r.end], input[r.end + 1])), r.end + 2)
  }

  // ---- Understanding inverts encoding -----------------------------------------------------

  lemma HeaderAt(methods: seq<byte>, cmd: byte, rsv: byte, atyp: byte, rest: seq<byte>)
    requires |methods| < 256
    ensures var b, g := Header(methods, cmd, rsv, atyp) + rest, 2 + |methods|;
      && GreetingEnd(b) == Some(g) && b[2..g] == methods && |b| == g + 4 + |rest|
      && b[g] == V5 && b[g + 1] == cmd && b[g + 2] == rsv && b[g + 3] == atyp && b[g + 4..] == rest
  {
  }

  lemma PortRoundTrip(p: port)
    ensures ToPort(PortBytes(p)[0], PortBytes(p)[1]) == p
  {
  }

  /** Every well-formed request is understood, whatever follows, up to its last byte. */
  lemma UnderstandsEncoded(r: Request, rest: seq<byte>)
    requires WellFormed(r)
    ensures Understand(Encode(r) + rest) == Asked(r, |Encode(r)|)
  {
    var tail := AddressBytes(r.address) + PortBytes(r.port) + rest;
    var b := Encode(r) + rest;
    var g := 2 + |r.methods|;
    HeaderAt(r.methods, CONNECT, r.rsv, Atyp(r.address), tail);
    assert b == Header(r.methods, CONNECT, r.rsv, Atyp(r.address)) + tail;
    TailAt(b, g, r.address, r.port, rest);
    PortRoundTrip(r.port);
  }

  lemma TailAt(b: seq<byte>, g: nat, a: Address, p: port, rest: seq<byte>)
    requires AddressOk(a)
    requires g + 4 <= |b| && b[g + 3] == Atyp(a) && b[g + 4..] == AddressBytes(a) + PortBytes(p) + rest
    ensures var end := g + 4 + |AddressBytes(a)|;
      && Locate(b, g) == Got(a, end) && end + 2 <= |b|
      && b[end] == PortBytes(p)[0] && b[end + 1] == PortBytes(p)[1]
  {
    var t := AddressBytes(a) + PortBytes(p) + rest;
    SliceOf(b, g + 4, t, |AddressBytes(a)|);
    assert t[..|AddressBytes(a)|] == AddressBytes(a);
    LocateAt(b, g, a);
  }

  lemma LocateAt(b: seq<byte>, g: nat, a: Address)
    requires AddressOk(a) && g + 4 + |AddressBytes(a)| <= |b| && b[g + 3] == Atyp(a)
    requires b[g + 4..g + 4 + |AddressBytes(a)|] == AddressBytes(a)
    ensures Locate(b, g) == Got(a, g + 4 + |AddressBytes(a)|)
  {
    if a.Domain? {
      var t := b[g + 4..g + 4 + |AddressBytes(a)|];
      assert t[0] == b[g + 4];
      assert b[g + 5..g + 5 + |a.name|] == t[1..];
    }
  }

  lemma SliceOf(b: seq<byte>, i: nat, t: seq<byte>, k: nat)
    requires i <= |b| && b[i..] == t && k <= |t|
    ensures b[i..i + k] == t[..k] && (k + 2 <= |t| ==> b[i + k] == t[k] && b[i + k + 1] == t[k + 1])
  {
  }

  /** Nothing else is taken for a request: what was consumed is an encoding of what was asked. */
  lemma AskedIsEncoded(input: seq<byte>)
    requires Understand(input).Asked?
    ensures var ask := Understand(input);
      WellFormed(ask.request) && ask.at <= |input| && input[..ask.at] == Encode(ask.request)
  {
    var ask, g := Understand(input), GreetingEnd(input).value;
    var end := Locate(input, g).end;
    HeaderOf(input, g);
    LocatedBytes(input, g);
    assert PortBytes(ask.request.port) == input[end..end + 2];
    ThreeParts(input, g + 4, end, end + 2);
  }

  lemma ThreeParts(b: seq<byte>, i: nat, j: nat, k: nat)
    requires i <= j <= k <= |b|
    ensures b[..k] == b[..i] + (b[i..j] + b[j..k])
  {
  }

  lemma LocatedBytes(input: seq<byte>, g: nat)
    requires g <= |input| - 4 && Locate(input, g).Got?
    ensures var r := Locate(input, g);
      && g + 4 <= r.end && Atyp(r.address) == input[g + 3] && AddressBytes(r.address) == input[g + 4..r.end]
  {
    var span := AddressSpan(input, g);
    if input[g + 3] == ATYP_DOMAIN {
      assert input[g + 4..span.from + span.len] == [input[g + 4]] + input[span.from..span.from + span.len];
    }
  }

  lemma HeaderOf(input: seq<byte>, g: nat)
    requires GreetingEnd(input) == Some(g) && g + 4 <= |input| && input[g] == V5
    ensures |input[2..g]| < 256 && input[..g + 4] == Header(input[2..g], input[g + 1], input[g + 2], input[g + 3])
  {
    assert input[..g] == [V5, input[1]] + input[2..g];
    assert input[..g + 4] == input[..g] + [V5, input[g + 1], input[g + 2], input[g + 3]];
  }

  /** A refusal is exactly a header with another command, or with an unknown address type. */
  ghost predicate StartsWithHeader(input: seq<byte>, n: nat, cmd: byte, atyp: byte) {
    exists methods: seq<byte>, rsv: byte ::
      |methods| < 256 && n <= |input| && input[..n] == Header(methods, cmd, rsv, atyp)
  }

  predicate RefusalCode(cmd: byte, atyp: byte, code: byte) {
    if cmd != CONNECT then code == CMD_NOT_SUPPORTED
    else atyp !in {ATYP_V4, ATYP_DOMAIN, ATYP_V6} && code == ADDR_NOT_SUPPORTED
  }

  lemma RefusedIff(input: seq<byte>, n: nat, code: byte)
    ensures Understand(input) == Refused(code, n) <==>
      exists cmd: byte, atyp: byte :: StartsWithHeader(input, n, cmd, atyp) && RefusalCode(cmd, atyp, code)
  {
    if Understand(input) == Refused(code, n) {
      var g := GreetingEnd(input).value;
      HeaderOf(input, g);
      assert StartsWithHeader(input, n, input[g + 1], input[g + 3]);
      assert RefusalCode(input[g + 1], input[g + 3], code);
    }
    if cmd: byte, atyp: byte :| StartsWithHeader(input, n, cmd, atyp) && RefusalCode(cmd, atyp, code) {
      var methods: seq<byte>, rsv: byte :| |methods| < 256 && n <= |input| && input[..n] == Header(methods, cmd, rsv, atyp);
      HeaderAt(methods, cmd, rsv, atyp, input[n..]);
      assert input == input[..n] + input[n..];
    }
  }

  // ---- Text of the target -----------------------------------------------------------------

  function Decimal(n: nat): string { Numeral.Text(n, 10) }

  function Dotted(o: seq<byte>): string
    requires |o| == 4
  {
    Numeral.Join([Decimal(o[0]), Decimal(o[1]), Decimal(o[2]), Decimal(o[3])], '.')
  }

  /** The first `k` 16-bit groups in hexadecimal. */
  function Groups(o: seq<byte>, k: nat): (g: seq<string>)
    requires 2 * k <= |o|
    ensures |g| == k
  {
    if k == 0 then [] else Groups(o, k - 1) + [Numeral.Text(ToPort(o[2 * k - 2], o[2 * k - 1]), 16)]
  }

  /** Host text; `lossy` is the standard library's lossy UTF-8 conversion. */
  function Host(lossy: seq<byte> -> string, a: Address): string
    requires AddressOk(a)
  {
    match a
    case V4(o) => Dotted(o)
    case Domain(name) => lossy(name)
    case V6(o) => Numeral.Join(Groups(o, 8), ':')
  }

  function WithPort(host: string, p: port): string {
    host + ":" + Decimal(p)
  }

  function Target(lossy: seq<byte> -> string, r: Request): string
    requires WellFormed(r)
  {
    WithPort(Host(lossy, r.address), r.port)
  }

  lemma NumeralAvoids(n: nat, base: nat, c: char)
    requires Numeral.Base(base) && (c == '.' || c == ':')
    ensures c !in Numeral.Text(n, base)
  {
    Numeral.TextRoundTrip(n, base);
  }

  /** The text is cut back into host and port at its last colon. */
  lemma TargetIsReadable(h: string, p: port, i: string, q: port)
    requires WithPort(h, p) == WithPort(i, q)
    ensures h == i && p == q
  {
    NumeralAvoids(p, 10, ':');
    NumeralAvoids(q, 10, ':');
    Numeral.LastSeparator(h, Decimal(p), i, Decimal(q), ':');
    Numeral.TextRoundTrip(p, 10);
    Numeral.TextRoundTrip(q, 10);
  }

  lemma DottedInjective(o: seq<byte>, p: seq<byte>)
    requires |o| == |p| == 4 && Dotted(o) == Dotted(p)
    ensures o == p
  {
    var a := [Decimal(o[0]), Decimal(o[1]), Decimal(o[2]), Decimal(o[3])];
    var b := [Decimal(p[0]), Decimal(p[1]), Decimal(p[2]), Decimal(p[3])];
    forall i | 0 <= i < 4 ensures '.' !in a[i] && '.' !in b[i] {
      NumeralAvoids(o[i], 10, '.');
      NumeralAvoids(p[i], 10, '.');
    }
    Numeral.JoinInjective(a, b, '.');
    forall i | 0 <= i < 4 ensures o[i] == p[i] {
      assert a[i] == b[i];
      Numeral.TextRoundTrip(o[i], 10);
      Numeral.TextRoundTrip(p[i], 10);
    }
  }

  lemma {:induction false} GroupsAvoid(o: seq<byte>, k: nat)
    requires 2 * k <= |o|
    ensures forall i :: 0 <= i < k ==> ':' !in Groups(o, k)[i]
  {
    if k > 0 {
      GroupsAvoid(o, k - 1);
      NumeralAvoids(ToPort(o[2 * k - 2], o[2 * k - 1]), 16, ':');
    }
  }

  lemma GroupIdentifies(a: byte, b: byte, c: byte, d: byte)
    requires Numeral.Text(ToPort(a, b), 16) == Numeral.Text(ToPort(c, d), 16)
    ensures a == c && b == d
  {
    Numeral.TextRoundTrip(ToPort(a, b), 16);
    Numeral.TextRoundTrip(ToPort(c, d), 16);
  }

  lemma TwoMore(o: seq<byte>, p: seq<byte>, i: nat)
    requires i + 2 <= |o| && i + 2 <= |p| && o[..i] == p[..i] && o[i] == p[i] && o[i + 1] == p[i + 1]
    ensures o[..i + 2] == p[..i + 2]
  {
    assert o[..i + 2] == o[..i] + [o[i], o[i + 1]];
    assert p[..i + 2] == p[..i] + [p[i], p[i + 1]];
  }

  lemma {:induction false} GroupsInjective(o: seq<byte>, p: seq<byte>, k: nat)
    requires 2 * k <= |o| == |p| && Groups(o, k) == Groups(p, k)
    ensures o[..2 * k] == p[..2 * k]
  {
    if k > 0 {
      var a, b := Groups(o, k), Groups(p, k);
      assert a[..k - 1] == Groups(o, k - 1) && b[..k - 1] == Groups(p, k - 1);
      GroupsInjective(o, p, k - 1);
      assert a[k - 1] == b[k - 1];
      GroupIdentifies(o[2 * k - 2], o[2 * k - 1], p[2 * k - 2], p[2 * k - 1]);
      TwoMore(o, p, 2 * k - 2);
    }
  }

  /** Two requests for numeric addresses of one kind have the same target text only if they ask
      for the same address and port. */
  lemma TargetIdentifies(lossy: seq<byte> -> string, r: Request, s: Request)
    requires WellFormed(r) && WellFormed(s) && Target(lossy, r) == Target(lossy, s)
    ensures r.port == s.port
    ensures r.address.V4? && s.address.V4? ==> r.address == s.address
    ensures r.address.V6? && s.address.V6? ==> r.address == s.address
  {
    TargetIsReadable(Host(lossy, r.address), r.port, Host(lossy, s.address), s.port);
    if r.address.V4? && s.address.V4? {
      DottedInjective(r.address.octets, s.address.octets);
    }
    if r.address.V6? && s.address.V6? {
      var o, p := r.address.octets, s.address.octets;
      GroupsAvoid(o, 8);
      GroupsAvoid(p, 8);
      Numeral.JoinInjective(Groups(o, 8), Groups(p, 8), ':');
      GroupsInjective(o, p, 8);
      assert o[..16] == o && p[..16] == p;
    }
  }

  // ---- The code ---------------------------------------------------------------------------

  /** A client connection: `input` is all it sends before closing, and it takes `room` bytes. */
  class Client {
    const input: seq<byte>
    const room: nat
    var pos: nat
    var sent: seq<byte>

    ghost predicate Valid()
      reads this
    {
      pos <= |input| && |sent| <= room
    }

    constructor (input: seq<byte>, room: nat)
      ensures Valid() && this.input == input && this.room == room && pos == 0 && sent == []
    {
      this.input, this.room, pos, sent := input, room, 0, [];
    }

    /** `read_exact(&mut buf[..n])`: the slice must lie inside the buffer. */
    method ReadExact(buf: array<byte>, n: nat) returns (ok: bool)
      requires Valid() && n <= buf.Length
      modifies this`pos, buf
      ensures Valid() && ok == (old(pos) + n <= |input|)
      ensures ok ==> pos == old(pos) + n && buf[..n] == input[old(pos)..pos]
      ensures !ok ==> pos == |input|
    {
      ok := pos + n <= |input|;
      var count := if ok then n else |input| - pos;
      for i := 0 to count
        invariant pos == old(pos) && buf[..i] == input[pos..pos + i]
      {
        buf[i] := input[pos + i];
      }
      pos := pos + count;
    }

    /** `write_all`. */
    method WriteAll(data: seq<byte>) returns (ok: bool)
      requires Valid()
      modifies this`sent
      ensures Valid() && sent == Cut(old(sent) + data, room) && ok == (|old(sent)| + |data| <= room)
    {
      ok := |sent| + |data| <= room;
      sent := Cut(sent + data, room);
    }
  }

  /** The method selection of section 3. */
  function Selection(input: seq<byte>): seq<byte> {
    if GreetingEnd(input).Some? then [V5, 0x00] else []
  }

  /** Reads the methods and selects "no authentication", whatever was offered. */
  method Greet(client: Client, buf: array<byte>) returns (ok: bool)
    requires client.Valid() && client.pos == 0 && client.sent == [] && buf.Length == 258
    modifies client, buf
    ensures client.Valid()
    ensures ok == (GreetingEnd(client.input).Some? && client.room >= 2)
    ensures client.sent == Cut(Selection(client.input), client.room)
    ensures client.pos == if GreetingEnd(client.input).Some? then GreetingEnd(client.input).value
                          else if Understand(client.input).NotSocks5? then 2 else |client.input|
  {
    ok := client.ReadExact(buf, 2);
    if !ok {
      return;
    }
    assert buf[..2][0] == client.input[0] && buf[..2][1] == client.input[1];
    if buf[0] != V5 {
      return false;
    }
    ok := client.ReadExact(buf, buf[1]);
    if ok {
      ok := client.WriteAll([V5, 0x00]);
    }
  }

  method FormatV4(buf: array<byte>) returns (text: string)
    requires buf.Length >= 4
    ensures text == Dotted(buf[..4])
  {
    text := Decimal(buf[0]) + "." + Decimal(buf[1]) + "." + Decimal(buf[2]) + "." + Decimal(buf[3]);
    DottedIs(buf[..4]);
  }

  method FormatV6(buf: array<byte>) returns (text: string)
    requires buf.Length >= 16
    ensures text == Numeral.Join(Groups(buf[..16], 8), ':')
  {
    var parts: seq<string> := [];
    for i := 0 to 8
      invariant parts == Groups(buf[..16], i)
    {
      parts := parts + [Numeral.Text(ToPort(buf[i * 2], buf[i * 2 + 1]), 16)];
    }
    text := Numeral.Join(parts, ':');
  }

  /** A length byte and that many bytes, read into one buffer. */
  method ReadName(client: Client, buf: array<byte>) returns (name: Option<seq<byte>>)
    requires client.Valid() && buf.Length == 258
    modifies client`pos, buf
    ensures client.Valid()
    ensures var input, at := client.input, old(client.pos);
      if at < |input| && at + 1 + input[at] as int <= |input|
      then client.pos == at + 1 + input[at] as int && name == Some(input[at + 1..at + 1 + input[at] as int])
      else client.pos == |input| && name.None?
  {
    ghost var at := client.pos;
    var ok := client.ReadExact(buf, 1);
    if !ok {
      return None;
    }
    assert buf[..1][0] == client.input[at];
    var n := buf[0];
    ok := client.ReadExact(buf, n);
    if !ok {
      return None;
    }
    name := Some(buf[..n]);
  }

  /** Reads the address after a header whose type byte is `atyp`. */
  method ReadHost(client: Client, buf: array<byte>, lossy: seq<byte> -> string, ghost g: nat) returns (host: Option<string>)
    requires client.Valid() && client.pos == g + 4 && buf.Length == 258 && buf[3] == client.input[g + 3]
    modifies client, buf
    ensures client.Valid()
    ensures var r := Locate(client.input, g);
      && host == (if r.Got? then Some(Host(lossy, r.address)) else None)
      && client.pos == (if r.Got? then r.end else if r.Short? then |client.input| else g + 4)
      && client.sent == if r.Unsupported? then Cut(old(client.sent) + Reply(ADDR_NOT_SUPPORTED), client.room) else old(client.sent)
  {
    var atyp := buf[3];
    if atyp == ATYP_V4 {
      var ok := client.ReadExact(buf, 4);
      if !ok {
        return None;
      }
      var text := FormatV4(buf);
      host := Some(text);
    } else if atyp == ATYP_DOMAIN {
      var name := ReadName(client, buf);
      host := if name.None? then None else Some(lossy(name.value));
    } else if atyp == ATYP_V6 {
      var ok := client.ReadExact(buf, 16);
      if !ok {
        return None;
      }
      var text := FormatV6(buf);
      host := Some(text);
    } else {
      var _ := client.WriteAll(Reply(ADDR_NOT_SUPPORTED));
      host := None;
    }
  }

  lemma DottedIs(o: seq<byte>)
    requires |o| == 4
    ensures Dotted(o) == Decimal(o[0]) + "." + Decimal(o[1]) + "." + Decimal(o[2]) + "." + Decimal(o[3])
  {
    var p := [Decimal(o[0]), Decimal(o[1]), Decimal(o[2]), Decimal(o[3])];
    assert p[..3][..2] == p[..2] && p[..2][..1] == [p[0]];
    assert Numeral.Join(p[..2], '.') == p[0] + "." + p[1];
    assert Numeral.Join(p[..3], '.') == p[0] + "." + p[1] + "." + p[2];
  }

  /** Bytes consumed when every write before the request succeeds. */
  function Consumed(input: seq<byte>): nat {
    var ask := Understand(input);
    if ask.Truncated? then |input| else if ask.NotSocks5? then 2 else ask.at
  }

  /** The refusal sent while reading the request. */
  function Refusal(input: seq<byte>): seq<byte> {
    var ask := Understand(input);
    if ask.Refused? then Reply(ask.code) else []
  }

  method ReadPort(client: Client, buf: array<byte>) returns (p: Option<port>)
    requires client.Valid() && buf.Length >= 2
    modifies client`pos, buf
    ensures client.Valid() && client.pos == if p.Some? then old(client.pos) + 2 else |client.input|
    ensures p.Some? <==> old(client.pos) + 2 <= |client.input|
    ensures p.Some? ==> p.value == ToPort(client.input[old(client.pos)], client.input[old(client.pos) + 1])
  {
    ghost var at := client.pos;
    var ok := client.ReadExact(buf, 2);
    if !ok {
      return None;
    }
    assert buf[..2][0] == client.input[at] && buf[..2][1] == client.input[at + 1];
    p := Some(ToPort(buf[0], buf[1]));
  }

  /** Reads the request after the greeting. */
  method ReadTarget(client: Client, buf: array<byte>, lossy: seq<byte> -> string) returns (target: Option<string>)
    requires client.Valid() && buf.Length == 258 && GreetingEnd(client.input) == Some(client.pos)
    modifies client, buf
    ensures client.Valid() && client.pos == Consumed(client.input)
    ensures client.sent == Cut(old(client.sent) + Refusal(client.input), client.room)
    ensures Understand(client.input).Asked? ==>
      WellFormed(Understand(client.input).request) && target == Some(Target(lossy, Understand(client.input).request))
    ensures !Understand(client.input).Asked? ==> target.None?
  {
    ghost var g := client.pos;
    var ok := client.ReadExact(buf, 4);
    if !ok {
      return None;
    }
    HeaderBytes(client.input, g, buf[..4]);
    if buf[0] != V5 {
      return None;
    }
    if buf[1] != CONNECT {
      var _ := client.WriteAll(Reply(CMD_NOT_SUPPORTED));
      return None;
    }
    target := ReadHostPort(client, buf, lossy, g);
  }

  method ReadHostPort(client: Client, buf: array<byte>, lossy: seq<byte> -> string, ghost g: nat) returns (target: Option<string>)
    requires client.Valid() && buf.Length == 258 && GreetingEnd(client.input) == Some(g) && client.pos == g + 4
    requires buf[3] == client.input[g + 3] && Understand(client.input) == UnderstandAddress(client.input, g)
    modifies client, buf
    ensures client.Valid() && client.pos == Consumed(client.input)
    ensures client.sent == Cut(old(client.sent) + Refusal(client.input), client.room)
    ensures Understand(client.input).Asked? ==>
      WellFormed(Understand(client.input).request) && target == Some(Target(lossy, Understand(client.input).request))
    ensures !Understand(client.input).Asked? ==> target.None?
  {
    AddressRead(client.input, g);
    var host := ReadHost(client, buf, lossy, g);
    if host.None? {
      return None;
    }
    var p := ReadPort(client, buf);
    target := if p.None? then None else Some(WithPort(host.value, p.value));
  }

  /** What reading the address, and then the port, comes to. */
  lemma AddressRead(input: seq<byte>, g: nat)
    requires GreetingEnd(input) == Some(g) && g + 4 <= |input| && Understand(input) == UnderstandAddress(input, g)
    ensures var r := Locate(input, g);
      if r.Unsupported? then Consumed(input) == g + 4 && Refusal(input) == Reply(ADDR_NOT_SUPPORTED) && !Understand(input).Asked?
      else if r.Short? || |input| < r.end + 2 then Consumed(input) == |input| && Refusal(input) == [] && !Understand(input).Asked?
      else
        && Consumed(input) == r.end + 2 && Refusal(input) == [] && Understand(input).Asked? && WellFormed(Understand(input).request)
        && Understand(input).request.address == r.address && Understand(input).request.port == ToPort(input[r.end], input[r.end + 1])
  {
  }

  lemma HeaderBytes(input: seq<byte>, g: nat, b: seq<byte>)
    requires g + 4 <= |input| && b == input[g..g + 4] && GreetingEnd(input) == Some(g)
    ensures b[0] == input[g] && b[1] == input[g + 1] && b[2] == input[g + 2] && b[3] == input[g + 3]
    ensures Understand(input) ==
      if b[0] != V5 then BadVersion(g + 4) else if b[1] != CONNECT then Refused(CMD_NOT_SUPPORTED, g + 4) else UnderstandAddress(input, g)
  {
  }

  /** Reply code once the target is known: `ack` is the server's answer, if one arrives. */
  function OutcomeCode(requestSent: bool, ack: Option<bool>): byte {
    if !requestSent || ack.None? then GENERAL_FAILURE
    else if !ack.value then NOT_ALLOWED
    else SUCCEEDED
  }

  /** Everything the client is told. */
  function Answer(input: seq<byte>, code: byte): seq<byte> {
    Selection(input) + if Understand(input).Asked? then Reply(code) else Refusal(input)
  }

  predicate CutOff(input: seq<byte>, room: nat) { GreetingEnd(input).Some? && room < 2 }

  /** State of the connection when the request has been read or given up. */
  predicate Heard(input: seq<byte>, room: nat, pos: nat, sent: seq<byte>) {
    && pos == (if CutOff(input, room) then GreetingEnd(input).value else Consumed(input))
    && sent == Cut(Selection(input) + Refusal(input), room)
  }

  lemma HeardGreeting(input: seq<byte>, room: nat, pos: nat)
    requires GreetingEnd(input).None? || room < 2
    requires pos == if GreetingEnd(input).Some? then GreetingEnd(input).value
                    else if Understand(input).NotSocks5? then 2 else |input|
    ensures Heard(input, room, pos, Cut(Selection(input), room))
    ensures !(Understand(input).Asked? && room >= 2)
  {
  }

  lemma HeardRequest(input: seq<byte>, room: nat, sent: seq<byte>)
    requires room >= 2 && sent == Cut(Selection(input), room)
    ensures Heard(input, room, Consumed(input), Cut(sent + Refusal(input), room))
  {
  }

  /** The reply that closes the handshake of a request that was understood. */
  lemma Replied(input: seq<byte>, room: nat, pos: nat, sent: seq<byte>, code: byte)
    requires Heard(input, room, pos, sent)
    ensures Understand(input).Asked? ==> Cut(sent + Reply(code), room) == Cut(Answer(input, code), room)
    ensures Understand(input).Asked? ==> |sent| == if room < 2 then room else 2
    ensures !Understand(input).Asked? || room < 2 ==> sent == Cut(Answer(input, code), room)
  {
    if Understand(input).Asked? {
      assert Selection(input) + [] == [V5, 0x00];
    }
  }

  method Hear(client: Client, lossy: seq<byte> -> string) returns (target: Option<string>)
    requires client.Valid() && client.pos == 0 && client.sent == []
    modifies client
    ensures client.Valid() && Heard(client.input, client.room, client.pos, client.sent)
    ensures target.Some? <==> Understand(client.input).Asked? && client.room >= 2
    ensures target.Some? ==> WellFormed(Understand(client.input).request) && target.value == Target(lossy, Understand(client.input).request)
  {
    var buf := new byte[258];
    var ok := Greet(client, buf);
    if !ok {
      HeardGreeting(client.input, client.room, client.pos);
      return None;
    }
    HeardRequest(client.input, client.room, client.sent);
    target := ReadTarget(client, buf, lossy);
  }

  /** `handle_socks5_client` up to the relay. `asked` is the target sent to the server. */
  method HandleClient(client: Client, lossy: seq<byte> -> string, requestSent: bool, ack: Option<bool>)
      returns (asked: Option<string>, established: bool)
    requires client.Valid() && client.pos == 0 && client.sent == []
    modifies client
    ensures client.sent == Cut(Answer(client.input, OutcomeCode(requestSent, ack)), client.room)
    ensures client.pos == if CutOff(client.input, client.room) then GreetingEnd(client.input).value else Consumed(client.input)
    ensures asked.Some? <==> Understand(client.input).Asked? && client.room >= 2
    ensures asked.Some? ==> WellFormed(Understand(client.input).request) && asked.value == Target(lossy, Understand(client.input).request)
    ensures established <==> asked.Some? && requestSent && ack == Some(true) && client.room >= 12
  {
    established := false;
    asked := Hear(client, lossy);
    Replied(client.input, client.room, client.pos, client.sent, OutcomeCode(requestSent, ack));
    if asked.None? {
      return;
    }
    if !requestSent || ack.None? {
      var _ := client.WriteAll(Reply(GENERAL_FAILURE));
      return;
    }
    if !ack.value {
      var _ := client.WriteAll(Reply(NOT_ALLOWED));
      return;
    }
    established := client.WriteAll(Reply(SUCCEEDED));
  }

  // ---- The second implementation ----------------------------------------------------------

  /** Its host text differs for IPv6 only; `show` is the library's compressed notation. */
  function QuicHost(lossy: seq<byte> -> string, show: seq<byte> -> string, a: Address): string
    requires AddressOk(a)
  {
    if a.V6? then "[" + show(a.octets) + "]" else Host(lossy, a)
  }

  method QuicReadHost(client: Client, atyp: byte, lossy: seq<byte> -> string, show: seq<byte> -> string, ghost g: nat)
      returns (host: Option<string>)
    requires client.Valid() && client.pos == g + 4 && atyp == client.input[g + 3]
    modifies client
    ensures client.Valid()
    ensures var r := Locate(client.input, g);
      && host == (if r.Got? then Some(QuicHost(lossy, show, r.address)) else None)
      && client.pos == (if r.Got? then r.end else if r.Short? then |client.input| else g + 4)
      && client.sent == if r.Unsupported? then Cut(old(client.sent) + Reply(ADDR_NOT_SUPPORTED), client.room) else old(client.sent)
  {
    host := None;
    if atyp == ATYP_V4 {
      var a := new byte[4];
      var ok := client.ReadExact(a, 4);
      if ok {
        var text := FormatV4(a);
        host := Some(text);
      }
    } else if atyp == ATYP_DOMAIN {
      var b := new byte[1];
      var ok := client.ReadExact(b, 1);
      if ok {
        assert b[..1][0] == client.input[g + 4];
        var n := b[0];
        var d := new byte[n];
        ok := client.ReadExact(d, n);
        if ok {
          host := Some(lossy(d[..n]));
        }
      }
    } else if atyp == ATYP_V6 {
      var a := new byte[16];
      var ok := client.ReadExact(a, 16);
      if ok {
        host := Some("[" + show(a[..16]) + "]");
      }
    } else {
      var _ := client.WriteAll(Reply(ADDR_NOT_SUPPORTED));
    }
  }

  method QuicReadPort(client: Client) returns (p: Option<port>)
    requires client.Valid()
    modifies client`pos
    ensures client.Valid() && client.pos == if p.Some? then old(client.pos) + 2 else |client.input|
    ensures p.Some? <==> old(client.pos) + 2 <= |client.input|
    ensures p.Some? ==> p.value == ToPort(client.input[old(client.pos)], client.input[old(client.pos) + 1])
  {
    var portBuf := new byte[2];
    p := ReadPort(client, portBuf);
  }

  method QuicReadTarget(client: Client, lossy: seq<byte> -> string, show: seq<byte> -> string) returns (target: Option<string>)
    requires client.Valid() && GreetingEnd(client.input) == Some(client.pos)
    modifies client
    ensures client.Valid() && client.pos == Consumed(client.input)
    ensures client.sent == Cut(old(client.sent) + Refusal(client.input), client.room)
    ensures Understand(client.input).Asked? ==>
      WellFormed(Understand(client.input).request) && target == Some(QuicTarget(lossy, show, Understand(client.input).request))
    ensures !Understand(client.input).Asked? ==> target.None?
  {
    target := None;
    ghost var g := client.pos;
    var hdr := new byte[4];
    var ok := client.ReadExact(hdr, 4);
    if !ok {
      return;
    }
    HeaderBytes(client.input, g, hdr[..4]);
    if hdr[0] != V5 {
      return;
    }
    if hdr[1] != CONNECT {
      var _ := client.WriteAll(Reply(CMD_NOT_SUPPORTED));
      return;
    }
    AddressRead(client.input, g);
    var host := QuicReadHost(client, hdr[3], lossy, show, g);
    if host.None? {
      return;
    }
    var p := QuicReadPort(client);
    target := if p.None? then None else Some(WithPort(host.value, p.value));
  }

  function QuicTarget(lossy: seq<byte> -> string, show: seq<byte> -> string, r: Request): string
    requires WellFormed(r)
  {
    WithPort(QuicHost(lossy, show, r.address), r.port)
  }

  method QuicGreet(client: Client) returns (ok: bool)
    requires client.Valid() && client.pos == 0 && client.sent == []
    modifies client
    ensures client.Valid()
    ensures ok == (GreetingEnd(client.input).Some? && client.room >= 2)
    ensures client.sent == Cut(Selection(client.input), client.room)
    ensures client.pos == if GreetingEnd(client.input).Some? then GreetingEnd(client.input).value
                          else if Understand(client.input).NotSocks5? then 2 else |client.input|
  {
    var buf := new byte[2];
    ok := client.ReadExact(buf, 2);
    if !ok {
      return;
    }
    assert buf[..2][0] == client.input[0] && buf[..2][1] == client.input[1];
    if buf[0] != V5 {
      return false;
    }
    var methods := new byte[buf[1]];
    ok := client.ReadExact(methods, buf[1]);
    if ok {
      ok := client.WriteAll([V5, 0x00]);
    }
  }

  method QuicHear(client: Client, lossy: seq<byte> -> string, show: seq<byte> -> string) returns (target: Option<string>)
    requires client.Valid() && client.pos == 0 && client.sent == []
    modifies client
    ensures client.Valid() && Heard(client.input, client.room, client.pos, client.sent)
    ensures target.Some? <==> Understand(client.input).Asked? && client.room >= 2
    ensures target.Some? ==> WellFormed(Understand(client.input).request) && target.value == QuicTarget(lossy, show, Understand(client.input).request)
  {
    var ok := QuicGreet(client);
    if !ok {
      HeardGreeting(client.input, client.room, client.pos);
      return None;
    }
    HeardRequest(client.input, client.room, client.sent);
    target := QuicReadTarget(client, lossy, show);
  }

  /** `handle_quic_socks5_conn` up to the relay: same bytes consumed, same refusals. */
  method HandleQuicClient(client: Client, lossy: seq<byte> -> string, show: seq<byte> -> string, tunnel: bool)
      returns (asked: Option<string>, established: bool)
    requires client.Valid() && client.pos == 0 && client.sent == []
    modifies client
    ensures client.sent == Cut(Answer(client.input, if tunnel then SUCCEEDED else GENERAL_FAILURE), client.room)
    ensures client.pos == if CutOff(client.input, client.room) then GreetingEnd(client.input).value else Consumed(client.input)
    ensures asked.Some? <==> Understand(client.input).Asked? && client.room >= 2
    ensures asked.Some? ==> WellFormed(Understand(client.input).request) && asked.value == QuicTarget(lossy, show, Understand(client.input).request)
    ensures established <==> asked.Some? && tunnel && client.room >= 12
  {
    established := false;
    asked := QuicHear(client, lossy, show);
    Replied(client.input, client.room, client.pos, client.sent, if tunnel then SUCCEEDED else GENERAL_FAILURE);
    if asked.None? {
      return;
    }
    if tunnel {
      established := client.WriteAll(Reply(SUCCEEDED));
    } else {
      var _ := client.WriteAll(Reply(GENERAL_FAILURE));
    }
  }

  // ---- What a client can rely on ----------------------------------------------------------

  /** What a reply says: its code, the kind and bytes of the bound address, the bound port. */
  datatype Told = Told(code: byte, atyp: byte, bound: seq<byte>, port: int)

  datatype Parsed = Parsed(told: Told, length: nat) | Unreadable

  /** Length of the bound address after the four bytes of the header, by its type. */
  function BoundLength(b: seq<byte>): Option<nat>
    requires |b| >= 4
  {
    match b[3]
    case 1 => Some(4)
    case 4 => Some(16)
    case 3 => if |b| > 4 then Some(1 + b[4] as int) else None
    case _ => None
  }

  /** A reader of section 6, byte by byte. */
  function ReadReply(b: seq<byte>): Parsed {
    if |b| < 4 || b[0] != 5 || b[2] != 0 then Unreadable
    else
      match BoundLength(b)
      case None => Unreadable
      case Some(n) =>
        if |b| < 6 + n then Unreadable
        else Parsed(Told(b[1], b[3], b[4..4 + n], b[4 + n] as int * 256 + b[5 + n] as int), 6 + n)
  }

  /** The client reads any reply to its last byte, whatever follows: its code, address 0.0.0.0 and
      port 0. The first byte of the tunnel is the next one. */
  lemma ReplyIsRead(code: byte, tunnel: seq<byte>)
    ensures ReadReply(Reply(code) + tunnel) == Parsed(Told(code, 1, [0, 0, 0, 0], 0), |Reply(code)|)
  {
    var b := Reply(code) + tunnel;
    assert b[4..8] == [0, 0, 0, 0];
  }

  /** The wire form of a request, sections 3 and 4: the greeting, four bytes, the address and the port. */
  lemma EncodedBytes(r: Request)
    requires WellFormed(r)
    ensures Encode(r) ==
      [5, |r.methods|] + r.methods
      + [5, 1, r.rsv, if r.address.V4? then 1 else if r.address.Domain? then 3 else 4]
      + (if r.address.Domain? then [|r.address.name|] + r.address.name else r.address.octets)
      + PortBytes(r.port)
    ensures |PortBytes(r.port)| == 2 && PortBytes(r.port)[0] as int * 256 + PortBytes(r.port)[1] as int == r.port
  {
    Grouped(Header(r.methods, CONNECT, r.rsv, Atyp(r.address)), AddressBytes(r.address), PortBytes(r.port));
  }

  lemma Grouped(a: seq<byte>, b: seq<byte>, c: seq<byte>)
    ensures a + (b + c) == a + b + c
  {
  }

  /** For every well-formed request: exactly its bytes are consumed and its target is the one
      asked for; with room for the answer, the client reads the selection and one reply with the
      code, up to the first byte of the tunnel. */
  lemma ServesEncoded(r: Request, rest: seq<byte>, code: byte, tunnel: seq<byte>)
    requires WellFormed(r)
    ensures Understand(Encode(r) + rest) == Asked(r, |Encode(r)|)
    ensures Consumed(Encode(r) + rest) == |Encode(r)|
    ensures var answer := Answer(Encode(r) + rest, code);
      && |answer| > 2 && answer[..2] == [5, 0]
      && ReadReply(answer[2..] + tunnel) == Parsed(Told(code, 1, [0, 0, 0, 0], 0), |answer| - 2)
  {
    UnderstandsEncoded(r, rest);
    AnswerParts(Encode(r) + rest, code, tunnel);
  }

  lemma AnswerParts(input: seq<byte>, code: byte, tunnel: seq<byte>)
    ensures var answer, ask := Answer(input, code), Understand(input);
      if ask.Asked? || ask.Refused? then
        && |answer| > 2 && answer[..2] == [5, 0]
        && ReadReply(answer[2..] + tunnel) ==
           Parsed(Told(if ask.Asked? then code else ask.code, 1, [0, 0, 0, 0], 0), |answer| - 2)
      else answer == if GreetingEnd(input).Some? then [5, 0] else []
  {
    var ask := Understand(input);
    if ask.Asked? || ask.Refused? {
      var c := if ask.Asked? then code else ask.code;
      assert Answer(input, code)[2..] == Reply(c);
      ReplyIsRead(c, tunnel);
    }
  }

  /** What the client is told after the selection, if anything. */
  function ToldAfter(answer: seq<byte>): Parsed { if |answer| < 2 then Unreadable else ReadReply(answer[2..]) }

  predicate IsTold(answer: seq<byte>, code: byte) {
    ToldAfter(answer).Parsed? && ToldAfter(answer).told.code == code
  }

  /** For every input: success (0) is reported exactly for a well-formed request the server
      acknowledged, a refusal by the rules (2) exactly for one it declined, a general failure (1) exactly
      for one that could not be asked or was not answered; otherwise the client is told what it did
      wrong, a command (7) or an address type (8), or nothing. */
  lemma SuccessIff(input: seq<byte>, requestSent: bool, ack: Option<bool>)
    ensures var answer, ask := Answer(input, OutcomeCode(requestSent, ack)), Understand(input);
      && (IsTold(answer, 0) <==> ask.Asked? && requestSent && ack == Some(true))
      && (IsTold(answer, 2) <==> ask.Asked? && requestSent && ack == Some(false))
      && (IsTold(answer, 1) <==> ask.Asked? && (!requestSent || ack.None?))
      && (forall code | code in [7, 8] :: IsTold(answer, code) <==> ask.Refused? && ask.code == code)
      && (ToldAfter(answer).Parsed? ==> ToldAfter(answer).told.code in {0, 1, 2, 7, 8} && ToldAfter(answer).length == |answer| - 2)
      && (ToldAfter(answer).Unreadable? ==> answer in [[], [5, 0]])
  {
    var answer, ask := Answer(input, OutcomeCode(requestSent, ack)), Understand(input);
    AnswerParts(input, OutcomeCode(requestSent, ack), []);
    if |answer| > 2 {
      assert answer[2..] + [] == answer[2..];
    } else if |answer| == 2 {
      assert answer[2..] == [];
    }
    RefusalIsKnown(input);
  }

  /** The two refusals, in bytes: another command, or another address type. */
  lemma RefusalIsKnown(input: seq<byte>)
    ensures Understand(input).Refused? ==>
      var g := Understand(input).at - 4;
      && 0 <= g <= |input| - 4 && input[g] == 5
      && if input[g + 1] != 1 then Understand(input).code == 7
         else input[g + 3] !in [1, 3, 4] && Understand(input).code == 8
  {
  }

  /** The second implementation tells the same client 0 or 1. */
  lemma QuicSuccessIff(input: seq<byte>, tunnel: bool)
    ensures var answer := Answer(input, if tunnel then SUCCEEDED else GENERAL_FAILURE);
      && (IsTold(answer, 0) <==> Understand(input).Asked? && tunnel)
      && (IsTold(answer, 1) <==> Understand(input).Asked? && !tunnel)
  {
    SuccessIff(input, tunnel, Some(true));
  }

  /** The two implementations ask for the same target exactly when it is not an IPv6 address. */
  lemma SameTargetIff(lossy: seq<byte> -> string, show: seq<byte> -> string, r: Request)
    requires WellFormed(r)
    ensures QuicTarget(lossy, show, r) == Target(lossy, r) <==> !r.address.V6?
  {
    if r.address.V6? {
      GroupStart(r.address.octets, 8);
      JoinStart(Groups(r.address.octets, 8), ':');
      var t := Target(lossy, r);
      assert t[0] == Groups(r.address.octets, 8)[0][0];
      assert QuicTarget(lossy, show, r)[0] == '[';
    }
  }

  lemma {:induction false} JoinStart(parts: seq<string>, sep: char)
    requires parts != [] && parts[0] != []
    ensures Numeral.Join(parts, sep) != [] && Numeral.Join(parts, sep)[0] == parts[0][0]
    decreases |parts|
  {
    if |parts| > 1 {
      JoinStart(parts[..|parts| - 1], sep);
    }
  }

  lemma {:induction false} GroupStart(o: seq<byte>, k: nat)
    requires 0 < 2 * k <= |o|
    ensures Groups(o, k)[0] != [] && Groups(o, k)[0][0] != '['
  {
    if k == 1 {
      Numeral.TextRoundTrip(ToPort(o[0], o[1]), 16);
      assert Groups(o, 0) == [];
    } else {
      GroupStart(o, k - 1);
    }
  }

  /** Section 3 lets the server select only a method the client offered: that holds exactly when
      "no authentication" is among them. */
  lemma SelectionConformsIff(input: seq<byte>, code: byte)
    requires GreetingEnd(input).Some?
    ensures var offered := input[2..GreetingEnd(input).value];
      Answer(input, code)[1] in offered <==> 0x00 in offered
  {
    assert Answer(input, code)[1] == 0x00;
  }

  /** A client that offers only user name and password is told to use no authentication. */
  lemma UnofferedMethodExample(input: seq<byte>, code: byte)
    requires input == [5, 1, 2]
    ensures Answer(input, code)[..2] == [V5, 0x00] && 0x00 !in input[2..3] && GreetingEnd(input) == Some(3)
  {
    assert GreetingEnd(input) == Some(3);
    assert Answer(input, code) == [V5, 0x00];
  }
}
