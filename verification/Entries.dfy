/** What the statement handlers of the PROFILE reader are for: every entry of a configuration can be written
    as a statement that enters exactly it, and a member of such statements is read back as their entries. */
module Entries {
  import opened Options
  import opened Bytes
  import opened Numerals
  import opened Profile
  import opened Statements
  import opened Members

  datatype Entry =
    | OfDev(dev: Dev) | OfLink(link: Link) | OfHome(home: Home) | OfGateway(gw: Gateway)
    | OfPort(port: Port) | OfPool(pool: PoolSize) | OfTrace(trace: Trace)

  /** An address in dotted decimals. */
  function Address(ip: Bytes.Word): string {
    Join([Decimal(ip / 0x100_0000), Decimal(ip / 0x1_0000 % 0x100), Decimal(ip / 0x100 % 0x100), Decimal(ip % 0x100)])
  }

  lemma WordParts(ip: Bytes.Word)
    ensures ip / 0x100_0000 < 0x100
    ensures ip == ((ip / 0x100_0000 * 0x100 + ip / 0x1_0000 % 0x100) * 0x100 + ip / 0x100 % 0x100) * 0x100 + ip % 0x100
  {
  }

  lemma AddressReads(ip: Bytes.Word)
    ensures Ipv4(Address(ip)) == Some(ip as nat)
  {
    var parts := [Decimal(ip / 0x100_0000), Decimal(ip / 0x1_0000 % 0x100), Decimal(ip / 0x100 % 0x100), Decimal(ip % 0x100)];
    WordParts(ip);
    DecimalOctet(ip / 0x100_0000);
    DecimalOctet(ip / 0x1_0000 % 0x100);
    DecimalOctet(ip / 0x100 % 0x100);
    DecimalOctet(ip % 0x100);
    Ipv4Reads(parts, ip / 0x100_0000, ip / 0x1_0000 % 0x100, ip / 0x100 % 0x100, ip % 0x100);
  }

  /** The statement that enters `e`; link numbers are not kept, so any will do. */
  function NetText(isDefault: bool, net: Word): string { if isDefault then "DEFAULTNET" else Address(net) }

  function MaskText(mask: Word): string { if mask == 0 then "0" else Address(mask) }

  function Written(e: Entry): seq<string>
    requires Sound(e)
  {
    match e
    case OfDev(d) => ["DEVICE", d.name, "CTC", HexText(d.cuu)]
    case OfLink(l) => ["LINK", l.name, "CTC", "0", l.devname]
    case OfHome(h) => ["HOME", Address(h.ip), h.link]
    case OfGateway(g) =>
      ["GATEWAY", NetText(g.isDefault, g.net), Address(g.firsthop), g.link, Decimal(g.mtu), MaskText(g.mask)]
    case OfPort(p) => ["PORT", Decimal(p.port), if p.tcp then "TCP" else "UDP", p.job]
    case OfPool(p) => ["NSFPOOL", p.name, Decimal(p.count)]
    case OfTrace(t) => ["NSFTRACE", t.comp, if t.on then "ON" else "OFF"]
  }

  /** A name a line can carry and its field can hold. */
  predicate Fitting(name: string, width: nat) { Clean(name) && |name| <= width }

  /** Values in range, names that can be written and fit their fields. */
  predicate Sound(e: Entry) {
    match e
    case OfDev(d) => Fitting(d.name, NAMELEN) && d.cuu < 0x1_0000
    case OfLink(l) => Fitting(l.name, NAMELEN) && Fitting(l.devname, NAMELEN)
    case OfHome(h) => h.ip < 0x1_0000_0000 && Fitting(h.link, NAMELEN)
    case OfGateway(g) =>
      && g.net < 0x1_0000_0000 && (g.isDefault ==> g.net == 0) && g.mask < 0x1_0000_0000 && g.firsthop < 0x1_0000_0000
      && Fitting(g.link, NAMELEN) && 68 <= g.mtu <= 65535
    case OfPort(p) => 1 <= p.port <= 65535 && Fitting(p.job, SHORTLEN)
    case OfPool(p) => Fitting(p.name, SHORTLEN) && 1 <= p.count <= 1000000
    case OfTrace(t) => Fitting(t.comp, SHORTLEN)
  }

  /** There is room for the entry, and its key is new. */
  predicate Enterable(c: Config, e: Entry) {
    match e
    case OfDev(d) => |c.devs| < 4 && !Known(DevNames(c.devs), d.name)
    case OfLink(l) => |c.links| < 4 && !Known(LinkNames(c.links), l.name)
    case OfHome(h) => |c.homes| < 8 && forall i :: 0 <= i < |c.homes| ==> c.homes[i].ip != h.ip
    case OfGateway(g) => |c.gws| < 8
    case OfPort(p) => |c.ports| < 16 && forall i :: 0 <= i < |c.ports| ==> c.ports[i].port != p.port || c.ports[i].tcp != p.tcp
    case OfPool(p) => |c.pools| < 8 && !Known(PoolNames(c.pools), p.name)
    case OfTrace(t) => |c.traces| < 8 && !Known(TraceNames(c.traces), t.comp)
  }

  function Enter(c: Config, e: Entry): Config {
    match e
    case OfDev(d) => c.(devs := c.devs + [d])
    case OfLink(l) => c.(links := c.links + [l])
    case OfHome(h) => c.(homes := c.homes + [h])
    case OfGateway(g) => c.(gws := c.gws + [g])
    case OfPort(p) => c.(ports := c.ports + [p])
    case OfPool(p) => c.(pools := c.pools + [p])
    case OfTrace(t) => c.(traces := c.traces + [t])
  }

  lemma KwApart(a: string, b: string, i: nat)
    requires i < |a| && (i >= |b| || Upper(a[i]) != Upper(b[i]))
    ensures !Kw(a, b)
  {
    if i < |b| { assert Up(a)[i] != Up(b)[i]; } else { assert |Up(a)| != |Up(b)|; }
  }

  lemma FieldAll(s: string, width: nat)
    requires |s| <= width
    ensures Field(s, width) == s
  {
  }

  lemma DevReads(c: Config, e: Entry)
    requires e.OfDev? && Sound(e) && Enterable(c, e)
    ensures DoDevice(c, Written(e)) == Ok(Enter(c, e))
  {
    CuuPrints(e.dev.cuu);
    FieldAll(e.dev.name, NAMELEN);
  }

  lemma LinkReads(c: Config, e: Entry)
    requires e.OfLink? && Sound(e) && Enterable(c, e)
    ensures DoLink(c, Written(e)) == Ok(Enter(c, e))
  {
    UintPrints(0);
    assert Decimal(0) == "0";
    FieldAll(e.link.name, NAMELEN);
    FieldAll(e.link.devname, NAMELEN);
  }

  lemma HomeReads(c: Config, e: Entry)
    requires e.OfHome? && Sound(e) && Enterable(c, e)
    ensures DoHome(c, Written(e)) == Ok(Enter(c, e))
  {
    AddressReads(e.home.ip);
    FieldAll(e.home.link, NAMELEN);
  }

  /** A dotted address is neither the keyword for a default route nor the numeral for no mask. */
  lemma AddressPlain(ip: Bytes.Word)
    ensures !Kw(Address(ip), "DEFAULTNET") && !Kw(Address(ip), "0")
  {
    var parts := [Decimal(ip / 0x100_0000), Decimal(ip / 0x1_0000 % 0x100), Decimal(ip / 0x100 % 0x100), Decimal(ip % 0x100)];
    DecimalReads(ip / 0x100_0000);
    JoinSplits(parts);
    var s := Address(ip);
    assert s[0] == Decimal(ip / 0x100_0000)[0] && IsDigit(s[0]);
    KwApart(s, "DEFAULTNET", 0);
    assert |s| > 1;
    KwApart(s, "0", 1);
  }

  lemma NetReads(isDefault: bool, net: Word)
    ensures Kw(NetText(isDefault, net), "DEFAULTNET") == isDefault
    ensures !isDefault ==> Ipv4(NetText(isDefault, net)) == Some(net)
  {
    AddressReads(net);
    AddressPlain(net);
  }

  lemma MaskReads(mask: Word)
    ensures Kw(MaskText(mask), "0") == (mask == 0)
    ensures mask != 0 ==> Ipv4(MaskText(mask)) == Some(mask)
  {
    AddressReads(mask);
    AddressPlain(mask);
  }

  lemma GatewayReads(c: Config, e: Entry)
    requires e.OfGateway? && Sound(e) && Enterable(c, e)
    ensures DoGateway(c, Written(e)) == Ok(Enter(c, e))
  {
    var g := e.gw;
    NetReads(g.isDefault, g.net);
    MaskReads(g.mask);
    AddressReads(g.firsthop);
    UintPrints(g.mtu);
    FieldAll(g.link, NAMELEN);
  }

  lemma PortReads(c: Config, e: Entry)
    requires e.OfPort? && Sound(e) && Enterable(c, e)
    ensures DoPort(c, Written(e)) == Ok(Enter(c, e))
  {
    UintPrints(e.port.port);
    FieldAll(e.port.job, SHORTLEN);
    KwApart("UDP", "TCP", 0);
  }

  lemma PoolReads(c: Config, e: Entry)
    requires e.OfPool? && Sound(e) && Enterable(c, e)
    ensures DoPool(c, Written(e)) == Ok(Enter(c, e))
  {
    UintPrints(e.pool.count);
    FieldAll(e.pool.name, SHORTLEN);
  }

  lemma TraceReads(c: Config, e: Entry)
    requires e.OfTrace? && Sound(e) && Enterable(c, e)
    ensures DoTrace(c, Written(e)) == Ok(Enter(c, e))
  {
    FieldAll(e.trace.comp, SHORTLEN);
    KwApart("OFF", "ON", 2);
  }

  /** The keywords that come before `kw` in the dispatch are not it. */
  lemma Dispatches(c: Config, e: Entry)
    requires Sound(e)
    ensures Statement(c, Written(e)) == match e
      case OfDev(_) => DoDevice(c, Written(e))
      case OfLink(_) => DoLink(c, Written(e))
      case OfHome(_) => DoHome(c, Written(e))
      case OfGateway(_) => DoGateway(c, Written(e))
      case OfPort(_) => DoPort(c, Written(e))
      case OfPool(_) => DoPool(c, Written(e))
      case OfTrace(_) => DoTrace(c, Written(e))
  {
    KwApart("HOME", "LINK", 0);
    KwApart("PORT", "LINK", 0);
    KwApart("PORT", "HOME", 0);
    KwApart("NSFPOOL", "GATEWAY", 0);
    assert |Up(Written(e)[0])| == |Written(e)[0]|;
    assert |Up("DEVICE")| == 6 && |Up("LINK")| == 4 && |Up("HOME")| == 4 && |Up("GATEWAY")| == 7 && |Up("PORT")| == 4;
    assert |Up("TCPCONFIG")| == 9 && |Up("UDPCONFIG")| == 9 && |Up("NSFPOOL")| == 7 && |Up("NSFTRACE")| == 8;
  }

  /** The written statement enters exactly the entry. */
  lemma EntryReads(c: Config, e: Entry)
    requires Sound(e) && Enterable(c, e)
    ensures Statement(c, Written(e)) == Ok(Enter(c, e))
  {
    Dispatches(c, e);
    match e
    case OfDev(_) => DevReads(c, e);
    case OfLink(_) => LinkReads(c, e);
    case OfHome(_) => HomeReads(c, e);
    case OfGateway(_) => GatewayReads(c, e);
    case OfPort(_) => PortReads(c, e);
    case OfPool(_) => PoolReads(c, e);
    case OfTrace(_) => TraceReads(c, e);
  }

  /** The configuration has an entry with this key: a name, an address, or a port of a protocol; a route has none. */
  predicate Taken(c: Config, e: Entry) {
    match e
    case OfDev(d) => Known(DevNames(c.devs), d.name)
    case OfLink(l) => Known(LinkNames(c.links), l.name)
    case OfHome(h) => exists i :: 0 <= i < |c.homes| && c.homes[i].ip == h.ip
    case OfGateway(_) => false
    case OfPort(p) => exists i :: 0 <= i < |c.ports| && c.ports[i].port == p.port && c.ports[i].tcp == p.tcp
    case OfPool(p) => Known(PoolNames(c.pools), p.name)
    case OfTrace(t) => Known(TraceNames(c.traces), t.comp)
  }

  lemma InterfaceRefused(c: Config, e: Entry)
    requires (e.OfDev? || e.OfLink?) && Sound(e) && !Enterable(c, e)
    ensures (if e.OfDev? then DoDevice(c, Written(e)) else DoLink(c, Written(e))) == Bad(if Taken(c, e) then 705 else 706)
  {
    if e.OfDev? { CuuPrints(e.dev.cuu); } else { UintPrints(0); assert Decimal(0) == "0"; }
  }

  lemma HomeRefused(c: Config, e: Entry)
    requires e.OfHome? && Sound(e) && !Enterable(c, e)
    ensures DoHome(c, Written(e)) == Bad(if Taken(c, e) then 705 else 706)
  {
    AddressReads(e.home.ip);
  }

  lemma GatewayFull(c: Config, t: seq<string>)
    requires DoGateway(c.(gws := []), t).Ok? && |c.gws| >= 8
    ensures DoGateway(c, t) == Bad(706)
  {
  }

  lemma GatewayRefused(c: Config, e: Entry)
    requires e.OfGateway? && Sound(e) && !Enterable(c, e)
    ensures DoGateway(c, Written(e)) == Bad(706)
  {
    GatewayReads(c.(gws := []), e);
    GatewayFull(c, Written(e));
  }

  lemma PortRefused(c: Config, e: Entry)
    requires e.OfPort? && Sound(e) && !Enterable(c, e)
    ensures DoPort(c, Written(e)) == Bad(if Taken(c, e) then 705 else 706)
  {
    UintPrints(e.port.port);
    KwApart("UDP", "TCP", 0);
  }

  lemma OtherRefused(c: Config, e: Entry)
    requires (e.OfPool? || e.OfTrace?) && Sound(e) && !Enterable(c, e)
    ensures (if e.OfPool? then DoPool(c, Written(e)) else DoTrace(c, Written(e))) == Bad(if Taken(c, e) then 705 else 706)
  {
    if e.OfPool? { UintPrints(e.pool.count); } else { KwApart("OFF", "ON", 2); }
  }

  /** A sound entry that cannot be entered is refused: with 705 if its key is taken, else with 706, its table full. */
  lemma EntryRefused(c: Config, e: Entry)
    requires Sound(e) && !Enterable(c, e)
    ensures Statement(c, Written(e)) == Bad(if Taken(c, e) then 705 else 706)
  {
    Dispatches(c, e);
    match e
    case OfDev(_) | OfLink(_) => InterfaceRefused(c, e);
    case OfHome(_) => HomeRefused(c, e);
    case OfGateway(_) => GatewayRefused(c, e);
    case OfPort(_) => PortRefused(c, e);
    case OfPool(_) | OfTrace(_) => OtherRefused(c, e);
  }

  /** The transport settings: sizes between 256 and 262144, and the checksum flag, each at most once. */
  lemma TcpReads(c: Config, recv: nat, send: nat)
    requires 256 <= recv <= 262144 && 256 <= send <= 262144
    ensures Statement(c, ["TCPCONFIG", "RECVBUFRSIZE", Decimal(recv), "SENDBUFRSIZE", Decimal(send)])
      == if c.tcp.None? then Ok(c.(tcp := Some((recv, send)))) else Bad(705)
  {
    var t := ["TCPCONFIG", "RECVBUFRSIZE", Decimal(recv), "SENDBUFRSIZE", Decimal(send)];
    TransportKeyword(c, t);
    UintPrints(recv);
    UintPrints(send);
    KwApart("SENDBUFRSIZE", "RECVBUFRSIZE", 0);
    assert TcpSizes(t, 5, (recv, send)) == (Some((recv, send)), 0);
    assert TcpSizes(t, 3, (recv, 0)) == TcpSizes(t, 5, (recv, send));
  }

  lemma UdpReads(c: Config, on: bool)
    ensures Statement(c, ["UDPCONFIG", if on then "UDPCHKSUM" else "NOUDPCHKSUM"])
      == if c.udp.None? then Ok(c.(udp := Some(on))) else Bad(705)
  {
    var t := ["UDPCONFIG", if on then "UDPCHKSUM" else "NOUDPCHKSUM"];
    TransportKeyword(c, t);
    KwApart("NOUDPCHKSUM", "UDPCHKSUM", 0);
    assert UdpFlag(t, 2, on) == Some(on);
  }

  lemma TransportKeyword(c: Config, t: seq<string>)
    requires t != [] && (t[0] == "TCPCONFIG" || t[0] == "UDPCONFIG")
    ensures Statement(c, t) == if t[0] == "TCPCONFIG" then DoTcp(c, t) else DoUdp(c, t)
  {
    KwApart("UDPCONFIG", "TCPCONFIG", 0);
    assert |Up(t[0])| == 9 && |Up("DEVICE")| == 6 && |Up("LINK")| == 4 && |Up("HOME")| == 4 && |Up("GATEWAY")| == 7 && |Up("PORT")| == 4;
  }

  // ---- the text ---------------------------------------------------------------------------------------------

  function Ten(k: nat): nat { if k == 0 then 1 else 10 * Ten(k - 1) }

  lemma {:induction false} DecimalShort(n: nat, k: nat)
    requires k > 0 && n < Ten(k)
    ensures |Decimal(n)| <= k
  {
    if n >= 10 { DecimalShort(n / 10, k - 1); }
  }

  lemma Tens()
    ensures Ten(3) == 1000 && Ten(10) == 10000000000
  {
    assert Ten(6) == 1000000;
  }

  lemma DigitsClean(s: string)
    requires s != "" && AllDigits(s)
    ensures Clean(s)
  {
  }

  lemma DecimalClean(n: Bytes.Word)
    ensures Fitting(Decimal(n), NAMELEN) && (n < 0x100 ==> |Decimal(n)| <= 3)
  {
    DecimalReads(n);
    DigitsClean(Decimal(n));
    Tens();
    DecimalShort(n, 10);
    if n < 0x100 { DecimalShort(n, 3); }
  }

  lemma HexClean(n: nat)
    requires n < 0x1_0000
    ensures Fitting(HexText(n), 4)
  {
    HexReads(n);
    forall i | 0 <= i < |HexText(n)| ensures HexVal(HexText(n)[i]) < 16 {}
  }

  lemma {:induction false} JoinClean(parts: seq<string>)
    requires parts != [] && forall i :: 0 <= i < |parts| ==> Clean(parts[i]) && |parts[i]| <= 3
    ensures Clean(Join(parts)) && |Join(parts)| <= 4 * |parts| - 1
  {
    if |parts| > 1 {
      JoinClean(parts[1..]);
      assert Join(parts) == parts[0] + "." + Join(parts[1..]);
    }
  }

  lemma AddressClean(ip: Bytes.Word)
    ensures Fitting(Address(ip), NAMELEN)
  {
    WordParts(ip);
    DecimalClean(ip / 0x100_0000);
    DecimalClean(ip / 0x1_0000 % 0x100);
    DecimalClean(ip / 0x100 % 0x100);
    DecimalClean(ip % 0x100);
    JoinClean([Decimal(ip / 0x100_0000), Decimal(ip / 0x1_0000 % 0x100), Decimal(ip / 0x100 % 0x100), Decimal(ip % 0x100)]);
  }

  lemma KeywordsClean()
    ensures Fitting("DEVICE", NAMELEN) && Fitting("CTC", NAMELEN) && Fitting("LINK", NAMELEN) && Fitting("0", NAMELEN) && Fitting("HOME", NAMELEN)
    ensures Fitting("GATEWAY", NAMELEN) && Fitting("DEFAULTNET", NAMELEN) && Fitting("PORT", NAMELEN) && Fitting("TCP", NAMELEN) && Fitting("UDP", NAMELEN)
    ensures Fitting("NSFPOOL", NAMELEN) && Fitting("NSFTRACE", NAMELEN) && Fitting("ON", NAMELEN) && Fitting("OFF", NAMELEN)
  {
  }

  predicate AllFit(words: seq<string>) { |words| <= 6 && forall i :: 0 <= i < |words| ==> Fitting(words[i], NAMELEN) }

  lemma GatewayFits(g: Gateway)
    requires Sound(OfGateway(g))
    ensures AllFit(Written(OfGateway(g)))
  {
    KeywordsClean();
    AddressClean(g.net);
    AddressClean(g.firsthop);
    AddressClean(g.mask);
    DecimalClean(g.mtu);
  }

  lemma InterfaceFits(e: Entry)
    requires Sound(e) && (e.OfDev? || e.OfLink? || e.OfHome?)
    ensures AllFit(Written(e))
  {
    KeywordsClean();
    if e.OfDev? { HexClean(e.dev.cuu); } else if e.OfHome? { AddressClean(e.home.ip); }
  }

  lemma OtherFits(e: Entry)
    requires Sound(e) && (e.OfPort? || e.OfPool? || e.OfTrace?)
    ensures AllFit(Written(e))
  {
    KeywordsClean();
    if e.OfPort? { DecimalClean(e.port.port); } else if e.OfPool? { DecimalClean(e.pool.count); }
  }

  lemma WrittenCarried(e: Entry)
    requires Sound(e)
    ensures Carried(Written(e))
  {
    if e.OfGateway? { GatewayFits(e.gw); } else if e.OfDev? || e.OfLink? || e.OfHome? { InterfaceFits(e); } else { OtherFits(e); }
    LineFits(Written(e));
  }

  // ---- whole members ------------------------------------------------------------------------------------------

  function EnterAll(c: Config, es: seq<Entry>): Config
    decreases |es|
  {
    if es == [] then c else EnterAll(Enter(c, es[0]), es[1..])
  }

  predicate AllEnterable(c: Config, es: seq<Entry>)
    decreases |es|
  {
    es == [] || (Sound(es[0]) && Enterable(c, es[0]) && AllEnterable(Enter(c, es[0]), es[1..]))
  }

  function AllWritten(c: Config, es: seq<Entry>): (stmts: seq<seq<string>>)
    requires AllEnterable(c, es)
    decreases |es|
  {
    if es == [] then [] else [Written(es[0])] + AllWritten(Enter(c, es[0]), es[1..])
  }

  lemma {:induction false} AllCarried(c: Config, es: seq<Entry>)
    requires AllEnterable(c, es)
    ensures forall i :: 0 <= i < |AllWritten(c, es)| ==> Carried(AllWritten(c, es)[i])
    decreases |es|
  {
    if es != [] {
      WrittenCarried(es[0]);
      AllCarried(Enter(c, es[0]), es[1..]);
    }
  }

  lemma {:induction false} StatementsRead(c: Config, es: seq<Entry>, line: nat)
    requires AllEnterable(c, es)
    ensures Parsed(c, AsRead(AllWritten(c, es)), line) == if EnterAll(c, es).homes == [] then Failed(0, 707) else Done(EnterAll(c, es))
    decreases |es|
  {
    if es != [] {
      EntryReads(c, es[0]);
      assert AllWritten(c, es)[1..] == AllWritten(Enter(c, es[0]), es[1..]);
      assert AsRead(AllWritten(c, es))[1..] == AsRead(AllWritten(Enter(c, es[0]), es[1..]));
      StatementsRead(Enter(c, es[0]), es[1..], line + 1);
    }
  }

  /** The text of a member of written entries is read back as exactly those entries, in order; without a HOME
      among them it is refused whole, with 707 for no line in particular. */
  lemma MemberReads(es: seq<Entry>)
    requires AllEnterable(ZERO, es)
    ensures Reported(Parsed(ZERO, Lines(Text(AllWritten(ZERO, es))), 0))
      == if EnterAll(ZERO, es).homes == [] then Report(ZERO, false, 0, 707) else Report(EnterAll(ZERO, es), true, 0, 0)
  {
    AllCarried(ZERO, es);
    TextReads(AllWritten(ZERO, es));
    StatementsRead(ZERO, es, 0);
  }

  // ---- a duplicate that is let in -----------------------------------------------------------------------------

  /** The second device's name goes on where the first one's fills its field. */
  function Second(d: Dev, more: string, cuu: nat): seq<string> { ["DEVICE", d.name + more, "CTC", HexText(cuu)] }

  lemma SecondCarried(d: Dev, more: string, cuu: nat)
    requires Fitting(d.name, NAMELEN) && Fitting(more, NAMELEN) && cuu < 0x1_0000
    ensures Carried(Second(d, more, cuu))
  {
    HexClean(cuu);
    var t := Second(d, more, cuu);
    assert Line(t[1..]) == t[1] + " " + Line(t[2..]) && Line(t[2..]) == t[2] + " " + Line(t[3..]) && Line(t[3..]) == t[3];
  }

  lemma SecondReads(c: Config, d: Dev, more: string, cuu: nat)
    requires |d.name| == NAMELEN && more != "" && cuu < 0x1_0000 && c.devs == [d]
    ensures Statement(c, Second(d, more, cuu)) == Ok(c.(devs := [d, Dev(d.name, cuu)]))
  {
    CuuPrints(cuu);
    var tok := d.name + more;
    assert Field(tok, NAMELEN) == d.name;
    forall i | 0 <= i < |DevNames(c.devs)| ensures Up(DevNames(c.devs)[i]) != Up(tok) {
      assert |Up(DevNames(c.devs)[i])| != |Up(tok)|;
    }
  }

  lemma Accepted(c: Config, stmts: seq<seq<string>>, line: nat, d: Config)
    requires stmts != [] && Statement(c, stmts[0]) == Ok(d)
    ensures Parsed(c, AsRead(stmts), line) == Parsed(d, AsRead(stmts[1..]), line + 1)
  {
    assert AsRead(stmts)[1..] == AsRead(stmts[1..]);
  }

  lemma AcceptedThree(c: Config, d: Config, e: Config, stmts: seq<seq<string>>)
    requires |stmts| == 3 && Statement(ZERO, stmts[0]) == Ok(c) && Statement(c, stmts[1]) == Ok(d) && Statement(d, stmts[2]) == Ok(e)
    ensures Parsed(ZERO, AsRead(stmts), 0) == Parsed(e, [], 3)
  {
    Accepted(ZERO, stmts, 0, c);
    Accepted(c, stmts[1..], 1, d);
    Accepted(d, stmts[1..][1..], 2, e);
    assert stmts[1..][1..][1..] == [];
  }

  /** A member with a duplicate name is accepted: name a second device by the first one's full-length name and
      anything behind it, and both are stored under the same name. */
  lemma DuplicateLetIn(d: Dev, more: string, cuu: nat, h: Home) returns (text: string)
    requires Sound(OfDev(d)) && |d.name| == NAMELEN && Fitting(more, NAMELEN) && cuu < 0x1_0000 && Sound(OfHome(h))
    ensures var r := Reported(Parsed(ZERO, Lines(text), 0)); r.stamped && r.cfg.devs == [d, Dev(d.name, cuu)] && !NamesUnique(r.cfg)
  {
    var stmts := [Written(OfDev(d)), Second(d, more, cuu), Written(OfHome(h))];
    text := Text(stmts);
    WrittenCarried(OfDev(d));
    SecondCarried(d, more, cuu);
    WrittenCarried(OfHome(h));
    TextReads(stmts);
    EntryReads(ZERO, OfDev(d));
    var c := Enter(ZERO, OfDev(d));
    SecondReads(c, d, more, cuu);
    var e := c.(devs := [d, Dev(d.name, cuu)]);
    EntryReads(e, OfHome(h));
    var f := Enter(e, OfHome(h));
    AcceptedThree(c, e, f, stmts);
    assert DevNames(f.devs)[0] == DevNames(f.devs)[1];
  }
}
