/** The statements of the PROFILE member (src/nsfcfg.c), and the parse as their fold over its lines. */
module Statements {
  import opened Options
  import opened Numerals
  import opened Profile

  const LINE_MAX: nat := 255
  const MAX_TOK: nat := 16

  const SYNTAX: nat := 700
  const IPADDR: nat := 701
  const MASK: nat := 702
  const BADCUU: nat := 703
  const RANGE: nat := 704
  const DUP: nat := 705
  const OVERFLOW: nat := 706
  const MISSING: nat := 707
  const STMT: nat := 708
  const KEYWORD: nat := 709

  datatype Dev = Dev(name: string, cuu: nat)
  datatype Link = Link(name: string, devname: string)
  datatype Home = Home(ip: nat, link: string)
  datatype Gateway = Gateway(net: nat, mask: nat, firsthop: nat, link: string, mtu: nat, isDefault: bool)
  datatype Port = Port(port: nat, tcp: bool, job: string)
  datatype PoolSize = PoolSize(name: string, count: nat)
  datatype Trace = Trace(comp: string, on: bool)

  datatype Config = Config(
    devs: seq<Dev>, links: seq<Link>, homes: seq<Home>, gws: seq<Gateway>, ports: seq<Port>, pools: seq<PoolSize>, traces: seq<Trace>,
    tcp: Option<(nat, nat)>, udp: Option<bool>, warnings: nat)

  const ZERO: Config := Config([], [], [], [], [], [], [], None, None, 0)

  datatype Result = Ok(cfg: Config) | Bad(code: nat)

  function Kw(tok: string, kw: string): bool { Up(tok) == Up(kw) }

  /** A name already in a list, as the duplicate scans see it. */
  predicate Known(names: seq<string>, tok: string) {
    exists i :: 0 <= i < |names| && Up(names[i]) == Up(tok)
  }

  function DevNames(ds: seq<Dev>): (r: seq<string>) ensures |r| == |ds| { seq(|ds|, i requires 0 <= i < |ds| => ds[i].name) }
  function LinkNames(ls: seq<Link>): (r: seq<string>) ensures |r| == |ls| { seq(|ls|, i requires 0 <= i < |ls| => ls[i].name) }
  function PoolNames(ps: seq<PoolSize>): (r: seq<string>) ensures |r| == |ps| { seq(|ps|, i requires 0 <= i < |ps| => ps[i].name) }
  function TraceNames(ts: seq<Trace>): (r: seq<string>) ensures |r| == |ts| { seq(|ts|, i requires 0 <= i < |ts| => ts[i].comp) }

  function DoDevice(c: Config, t: seq<string>): Result {
    if |t| != 4 then Bad(SYNTAX)
    else if !Kw(t[2], "CTC") then Bad(KEYWORD)
    else if Cuu(t[3]).None? then Bad(BADCUU)
    else if Known(DevNames(c.devs), t[1]) then Bad(DUP)
    else if |c.devs| >= 4 then Bad(OVERFLOW)
    else Ok(c.(devs := c.devs + [Dev(Field(t[1], NAMELEN), Cuu(t[3]).value)]))
  }

  function DoLink(c: Config, t: seq<string>): Result {
    if |t| != 5 then Bad(SYNTAX)
    else if !Kw(t[2], "CTC") then Bad(KEYWORD)
    else if Uint(t[3]).None? then Bad(SYNTAX)
    else if Uint(t[3]).value > 255 then Bad(RANGE)
    else if Known(LinkNames(c.links), t[1]) then Bad(DUP)
    else if |c.links| >= 4 then Bad(OVERFLOW)
    else Ok(c.(links := c.links + [Link(Field(t[1], NAMELEN), Field(t[4], NAMELEN))]))
  }

  function DoHome(c: Config, t: seq<string>): Result {
    if |t| != 3 then Bad(SYNTAX)
    else if Ipv4(t[1]).None? then Bad(IPADDR)
    else if exists i :: 0 <= i < |c.homes| && c.homes[i].ip == Ipv4(t[1]).value then Bad(DUP)
    else if |c.homes| >= 8 then Bad(OVERFLOW)
    else Ok(c.(homes := c.homes + [Home(Ipv4(t[1]).value, Field(t[2], NAMELEN))]))
  }

  function DoGateway(c: Config, t: seq<string>): Result {
    if |t| != 6 then Bad(SYNTAX)
    else
      var isDefault := Kw(t[1], "DEFAULTNET");
      var noMask := Kw(t[5], "0");
      if !isDefault && Ipv4(t[1]).None? then Bad(IPADDR)
      else if Ipv4(t[2]).None? then Bad(IPADDR)
      else if Uint(t[4]).None? then Bad(SYNTAX)
      else if Uint(t[4]).value < 68 || Uint(t[4]).value > 65535 then Bad(RANGE)
      else if !noMask && Ipv4(t[5]).None? then Bad(MASK)
      else if |c.gws| >= 8 then Bad(OVERFLOW)
      else Ok(c.(gws := c.gws + [Gateway(if isDefault then 0 else Ipv4(t[1]).value, if noMask then 0 else Ipv4(t[5]).value,
                                         Ipv4(t[2]).value, Field(t[3], NAMELEN), Uint(t[4]).value, isDefault)]))
  }

  function DoPort(c: Config, t: seq<string>): Result {
    if |t| != 4 then Bad(SYNTAX)
    else if Uint(t[1]).None? then Bad(SYNTAX)
    else if Uint(t[1]).value < 1 || Uint(t[1]).value > 65535 then Bad(RANGE)
    else if !Kw(t[2], "TCP") && !Kw(t[2], "UDP") then Bad(KEYWORD)
    else if exists i :: 0 <= i < |c.ports| && c.ports[i].port == Uint(t[1]).value && c.ports[i].tcp == Kw(t[2], "TCP") then Bad(DUP)
    else if |c.ports| >= 16 then Bad(OVERFLOW)
    else Ok(c.(ports := c.ports + [Port(Uint(t[1]).value, Kw(t[2], "TCP"), Field(t[3], SHORTLEN))]))
  }

  function DoPool(c: Config, t: seq<string>): Result {
    if |t| != 3 then Bad(SYNTAX)
    else if Uint(t[2]).None? then Bad(SYNTAX)
    else if Uint(t[2]).value < 1 || Uint(t[2]).value > 1000000 then Bad(RANGE)
    else if Known(PoolNames(c.pools), t[1]) then Bad(DUP)
    else if |c.pools| >= 8 then Bad(OVERFLOW)
    else Ok(c.(pools := c.pools + [PoolSize(Field(t[1], SHORTLEN), Uint(t[2]).value)]))
  }

  function DoTrace(c: Config, t: seq<string>): Result {
    if |t| != 3 then Bad(SYNTAX)
    else if !Kw(t[2], "ON") && !Kw(t[2], "OFF") then Bad(KEYWORD)
    else if Known(TraceNames(c.traces), t[1]) then Bad(DUP)
    else if |c.traces| >= 8 then Bad(OVERFLOW)
    else Ok(c.(traces := c.traces + [Trace(Field(t[1], SHORTLEN), Kw(t[2], "ON"))]))
  }

  /** The size keywords of TCPCONFIG, from token `i` on; there may be none. */
  function TcpSizes(t: seq<string>, i: nat, sizes: (nat, nat)): (r: (Option<(nat, nat)>, nat))
    decreases |t| - i
  {
    if i >= |t| then (Some(sizes), 0)
    else if !Kw(t[i], "RECVBUFRSIZE") && !Kw(t[i], "SENDBUFRSIZE") then (None, KEYWORD)
    else if i + 1 >= |t| || Uint(t[i + 1]).None? then (None, SYNTAX)
    else if Uint(t[i + 1]).value < 256 || Uint(t[i + 1]).value > 262144 then (None, RANGE)
    else TcpSizes(t, i + 2, if Kw(t[i], "RECVBUFRSIZE") then (Uint(t[i + 1]).value, sizes.1) else (sizes.0, Uint(t[i + 1]).value))
  }

  function DoTcp(c: Config, t: seq<string>): Result {
    if c.tcp.Some? then Bad(DUP)
    else
      var (sizes, code) := TcpSizes(t, 1, (0, 0));
      if sizes.None? then Bad(code) else Ok(c.(tcp := sizes))
  }

  function UdpFlag(t: seq<string>, i: nat, on: bool): Option<bool>
    decreases |t| - i
  {
    if i >= |t| then Some(on)
    else if Kw(t[i], "UDPCHKSUM") then UdpFlag(t, i + 1, true)
    else if Kw(t[i], "NOUDPCHKSUM") then UdpFlag(t, i + 1, false)
    else None
  }

  function DoUdp(c: Config, t: seq<string>): Result {
    if c.udp.Some? then Bad(DUP)
    else if UdpFlag(t, 1, true).None? then Bad(KEYWORD)
    else Ok(c.(udp := UdpFlag(t, 1, true)))
  }

  predicate Ignorable(stmt: string) {
    Kw(stmt, "TRANSLATE") || Kw(stmt, "DATASETPREFIX") || Kw(stmt, "ARPAGE") || Kw(stmt, "INFORM")
  }

  /** One logical line. */
  function Statement(c: Config, t: seq<string>): Result {
    if t == [] then Ok(c)
    else if Kw(t[0], "DEVICE") then DoDevice(c, t)
    else if Kw(t[0], "LINK") then DoLink(c, t)
    else if Kw(t[0], "HOME") then DoHome(c, t)
    else if Kw(t[0], "GATEWAY") then DoGateway(c, t)
    else if Kw(t[0], "PORT") then DoPort(c, t)
    else if Kw(t[0], "TCPCONFIG") then DoTcp(c, t)
    else if Kw(t[0], "UDPCONFIG") then DoUdp(c, t)
    else if Kw(t[0], "NSFPOOL") then DoPool(c, t)
    else if Kw(t[0], "NSFTRACE") then DoTrace(c, t)
    else if Ignorable(t[0]) then Ok(c.(warnings := c.warnings + 1))
    else Bad(STMT)
  }

  // ---- what a valid configuration is ------------------------------------------------------------------------------

  predicate Unique(names: seq<string>) {
    forall i, j :: 0 <= i < j < |names| ==> Up(names[i]) != Up(names[j])
  }

  predicate Bounded(c: Config) {
    |c.devs| <= 4 && |c.links| <= 4 && |c.homes| <= 8 && |c.gws| <= 8 && |c.ports| <= 16 && |c.pools| <= 8 && |c.traces| <= 8
  }

  predicate KeysUnique(c: Config) {
    && (forall i, j :: 0 <= i < j < |c.homes| ==> c.homes[i].ip != c.homes[j].ip)
    && (forall i, j :: 0 <= i < j < |c.ports| ==> c.ports[i].port != c.ports[j].port || c.ports[i].tcp != c.ports[j].tcp)
  }

  /** Every value is within its range, and every name within its field. */
  predicate Ranged(c: Config) {
    && (forall i :: 0 <= i < |c.devs| ==> |c.devs[i].name| <= 16 && c.devs[i].cuu <= 0xFFFF)
    && (forall i :: 0 <= i < |c.links| ==> |c.links[i].name| <= 16 && |c.links[i].devname| <= 16)
    && (forall i :: 0 <= i < |c.homes| ==> c.homes[i].ip <= 0xFFFF_FFFF && |c.homes[i].link| <= 16)
    && (forall i :: 0 <= i < |c.gws| ==> RouteRanged(c.gws[i]))
    && (forall i :: 0 <= i < |c.ports| ==> 1 <= c.ports[i].port <= 65535 && |c.ports[i].job| <= 8)
    && (forall i :: 0 <= i < |c.pools| ==> |c.pools[i].name| <= 8 && 1 <= c.pools[i].count <= 1000000)
    && (forall i :: 0 <= i < |c.traces| ==> |c.traces[i].comp| <= 8)
    && (c.tcp.Some? ==> SizeRanged(c.tcp.value.0) && SizeRanged(c.tcp.value.1))
  }

  predicate RouteRanged(g: Gateway) {
    && g.net <= 0xFFFF_FFFF && g.mask <= 0xFFFF_FFFF && g.firsthop <= 0xFFFF_FFFF && |g.link| <= 16 && 68 <= g.mtu <= 65535
    && (g.isDefault ==> g.net == 0)
  }

  /** Not given, or between 256 and 262144. */
  predicate SizeRanged(n: nat) { n == 0 || 256 <= n <= 262144 }

  predicate NamesUnique(c: Config) {
    Unique(DevNames(c.devs)) && Unique(LinkNames(c.links)) && Unique(PoolNames(c.pools)) && Unique(TraceNames(c.traces))
  }

  /** A statement of kind `kw` whose name is longer than its field, and cut to the field is one of `names`. */
  predicate Cut(t: seq<string>, kw: string, names: seq<string>, width: nat) {
    |t| >= 2 && Kw(t[0], kw) && |t[1]| > width && Known(names, t[1][..width])
  }

  /** The statement enters an over-long name whose cut is already known. */
  predicate Collides(c: Config, t: seq<string>) {
    || Cut(t, "DEVICE", DevNames(c.devs), NAMELEN) || Cut(t, "LINK", LinkNames(c.links), NAMELEN)
    || Cut(t, "NSFPOOL", PoolNames(c.pools), SHORTLEN) || Cut(t, "NSFTRACE", TraceNames(c.traces), SHORTLEN)
  }

  /** The scan compares the whole token, and its cut is stored: a new name is new exactly if it is not cut
      down to a known one. */
  lemma Entered(names: seq<string>, tok: string, width: nat)
    requires Unique(names) && !Known(names, tok)
    ensures Unique(names + [Field(tok, width)]) <==> !(|tok| > width && Known(names, tok[..width]))
  {
    var more := names + [Field(tok, width)];
    if |tok| <= width { assert Field(tok, width) == tok; }
    if |tok| > width && Known(names, tok[..width]) {
      var i :| 0 <= i < |names| && Up(names[i]) == Up(tok[..width]);
      assert Up(more[i]) == Up(more[|names|]);
    }
  }

  lemma DeviceNames(c: Config, t: seq<string>)
    requires DoDevice(c, t).Ok? && NamesUnique(c)
    ensures NamesUnique(DoDevice(c, t).cfg) <==> !(|t[1]| > NAMELEN && Known(DevNames(c.devs), t[1][..NAMELEN]))
  {
    var d := DoDevice(c, t).cfg;
    Entered(DevNames(c.devs), t[1], NAMELEN);
    assert DevNames(d.devs) == DevNames(c.devs) + [Field(t[1], NAMELEN)];
  }

  lemma LinkNamesUnique(c: Config, t: seq<string>)
    requires DoLink(c, t).Ok? && NamesUnique(c)
    ensures NamesUnique(DoLink(c, t).cfg) <==> !(|t[1]| > NAMELEN && Known(LinkNames(c.links), t[1][..NAMELEN]))
  {
    var d := DoLink(c, t).cfg;
    Entered(LinkNames(c.links), t[1], NAMELEN);
    assert LinkNames(d.links) == LinkNames(c.links) + [Field(t[1], NAMELEN)];
  }

  lemma PoolNamesUnique(c: Config, t: seq<string>)
    requires DoPool(c, t).Ok? && NamesUnique(c)
    ensures NamesUnique(DoPool(c, t).cfg) <==> !(|t[1]| > SHORTLEN && Known(PoolNames(c.pools), t[1][..SHORTLEN]))
  {
    var d := DoPool(c, t).cfg;
    Entered(PoolNames(c.pools), t[1], SHORTLEN);
    assert PoolNames(d.pools) == PoolNames(c.pools) + [Field(t[1], SHORTLEN)];
  }

  lemma TraceNamesUnique(c: Config, t: seq<string>)
    requires DoTrace(c, t).Ok? && NamesUnique(c)
    ensures NamesUnique(DoTrace(c, t).cfg) <==> !(|t[1]| > SHORTLEN && Known(TraceNames(c.traces), t[1][..SHORTLEN]))
  {
    var d := DoTrace(c, t).cfg;
    Entered(TraceNames(c.traces), t[1], SHORTLEN);
    assert TraceNames(d.traces) == TraceNames(c.traces) + [Field(t[1], SHORTLEN)];
  }

  lemma HomeKeeps(c: Config, t: seq<string>)
    requires DoHome(c, t).Ok? && KeysUnique(c)
    ensures KeysUnique(DoHome(c, t).cfg)
  {
  }

  lemma PortKeeps(c: Config, t: seq<string>)
    requires DoPort(c, t).Ok? && KeysUnique(c)
    ensures KeysUnique(DoPort(c, t).cfg)
  {
  }

  /** The statements of the interfaces and routes. */
  predicate Routing(stmt: string) {
    Kw(stmt, "DEVICE") || Kw(stmt, "LINK") || Kw(stmt, "HOME") || Kw(stmt, "GATEWAY")
  }

  lemma RoutingBounds(c: Config, t: seq<string>)
    requires t != [] && Routing(t[0]) && Statement(c, t).Ok? && Bounded(c)
    ensures Bounded(Statement(c, t).cfg)
  {
  }

  lemma OtherBounds(c: Config, t: seq<string>)
    requires t != [] && !Routing(t[0]) && Statement(c, t).Ok? && Bounded(c)
    ensures Bounded(Statement(c, t).cfg)
  {
  }

  lemma BoundsKept(c: Config, t: seq<string>)
    requires Statement(c, t).Ok? && Bounded(c)
    ensures Bounded(Statement(c, t).cfg)
  {
    if t != [] {
      if Routing(t[0]) { RoutingBounds(c, t); } else { OtherBounds(c, t); }
    }
  }

  lemma InterfaceRanged(c: Config, t: seq<string>)
    requires t != [] && Routing(t[0]) && Statement(c, t).Ok? && Ranged(c)
    ensures Ranged(Statement(c, t).cfg)
  {
    if Kw(t[0], "DEVICE") { CuuRange(t[3]); } else if Kw(t[0], "HOME") { AddressRange(t[1]); }
    else if Kw(t[0], "GATEWAY") { AddressRange(t[1]); AddressRange(t[2]); AddressRange(t[5]); }
  }

  lemma {:induction false} SizesRanged(t: seq<string>, i: nat, sizes: (nat, nat))
    requires SizeRanged(sizes.0) && SizeRanged(sizes.1) && TcpSizes(t, i, sizes).0.Some?
    ensures var r := TcpSizes(t, i, sizes).0.value; SizeRanged(r.0) && SizeRanged(r.1)
    decreases |t| - i
  {
    if i < |t| {
      SizesRanged(t, i + 2, if Kw(t[i], "RECVBUFRSIZE") then (Uint(t[i + 1]).value, sizes.1) else (sizes.0, Uint(t[i + 1]).value));
    }
  }

  lemma PortRanged(c: Config, t: seq<string>)
    requires DoPort(c, t).Ok? && Ranged(c)
    ensures Ranged(DoPort(c, t).cfg)
  {
  }

  lemma PoolRanged(c: Config, t: seq<string>)
    requires DoPool(c, t).Ok? && Ranged(c)
    ensures Ranged(DoPool(c, t).cfg)
  {
  }

  lemma TraceRanged(c: Config, t: seq<string>)
    requires DoTrace(c, t).Ok? && Ranged(c)
    ensures Ranged(DoTrace(c, t).cfg)
  {
  }

  lemma TransportRanged(c: Config, t: seq<string>)
    requires Ranged(c)
    ensures DoTcp(c, t).Ok? ==> Ranged(DoTcp(c, t).cfg)
    ensures DoUdp(c, t).Ok? ==> Ranged(DoUdp(c, t).cfg)
  {
    if DoTcp(c, t).Ok? { SizesRanged(t, 1, (0, 0)); }
  }

  lemma OtherRanged(c: Config, t: seq<string>)
    requires t != [] && !Routing(t[0]) && Statement(c, t).Ok? && Ranged(c)
    ensures Ranged(Statement(c, t).cfg)
  {
    if Kw(t[0], "PORT") { PortRanged(c, t); } else if Kw(t[0], "NSFPOOL") { PoolRanged(c, t); } else if Kw(t[0], "NSFTRACE") { TraceRanged(c, t); }
    TransportRanged(c, t);
  }

  lemma RangesKept(c: Config, t: seq<string>)
    requires Statement(c, t).Ok? && Ranged(c)
    ensures Ranged(Statement(c, t).cfg)
  {
    if t != [] {
      if Routing(t[0]) { InterfaceRanged(c, t); } else { OtherRanged(c, t); }
    }
  }

  lemma KeysKept(c: Config, t: seq<string>)
    requires Statement(c, t).Ok? && KeysUnique(c)
    ensures KeysUnique(Statement(c, t).cfg)
  {
    if t == [] || Kw(t[0], "DEVICE") || Kw(t[0], "LINK") {
    } else if Kw(t[0], "HOME") {
      HomeKeeps(c, t);
    } else if Kw(t[0], "GATEWAY") {
    } else if Kw(t[0], "PORT") {
      PortKeeps(c, t);
    }
  }

  /** Every statement keeps what a valid configuration is ... */
  lemma StatementKeeps(c: Config, t: seq<string>)
    requires Statement(c, t).Ok? && Bounded(c) && KeysUnique(c) && Ranged(c)
    ensures Bounded(Statement(c, t).cfg) && KeysUnique(Statement(c, t).cfg) && Ranged(Statement(c, t).cfg)
  {
    RangesKept(c, t);
    BoundsKept(c, t);
    KeysKept(c, t);
  }

  lemma KwLengths(tok: string)
    ensures Kw(tok, "DEVICE") ==> |tok| == 6
    ensures Kw(tok, "LINK") ==> |tok| == 4
    ensures Kw(tok, "NSFPOOL") ==> |tok| == 7
    ensures Kw(tok, "NSFTRACE") ==> |tok| == 8
    ensures Kw(tok, "HOME") || Kw(tok, "PORT") ==> |tok| == 4 && !Kw(tok, "LINK")
    ensures Kw(tok, "GATEWAY") ==> |tok| == 7 && !Kw(tok, "NSFPOOL")
    ensures Kw(tok, "TCPCONFIG") || Kw(tok, "UDPCONFIG") ==> |tok| == 9
  {
    assert |Up(tok)| == |tok| && |Up("DEVICE")| == 6 && |Up("LINK")| == 4 && |Up("NSFPOOL")| == 7 && |Up("NSFTRACE")| == 8;
    assert |Up("TCPCONFIG")| == 9 && |Up("UDPCONFIG")| == 9 && |Up("HOME")| == 4 && |Up("PORT")| == 4 && |Up("GATEWAY")| == 7;
    assert Up("LINK")[0] == 'L' && Up("HOME")[0] == 'H' && Up("PORT")[0] == 'P';
    assert Up("GATEWAY")[0] == 'G' && Up("NSFPOOL")[0] == 'N';
  }

  /** ... and a statement that is accepted keeps names apart exactly if it does not cut one down to a known one. */
  lemma NamesKept(c: Config, t: seq<string>)
    requires Statement(c, t).Ok? && NamesUnique(c)
    ensures NamesUnique(Statement(c, t).cfg) <==> !Collides(c, t)
  {
    if t != [] {
      KwLengths(t[0]);
      if Kw(t[0], "DEVICE") { DeviceNames(c, t); }
      else if Kw(t[0], "LINK") { LinkNamesUnique(c, t); }
      else if Kw(t[0], "NSFPOOL") { PoolNamesUnique(c, t); }
      else if Kw(t[0], "NSFTRACE") { TraceNamesUnique(c, t); }
    }
  }

  lemma UniqueFront(names: seq<string>, more: seq<string>)
    requires names <= more && !Unique(names)
    ensures !Unique(more)
  {
    var i, j :| 0 <= i < j < |names| && Up(names[i]) == Up(names[j]);
    assert Up(more[i]) == Up(more[j]);
  }

  /** Nothing is ever taken out. */
  predicate Grows(c: Config, d: Config) {
    c.devs <= d.devs && c.links <= d.links && c.pools <= d.pools && c.traces <= d.traces
  }

  lemma RoutingGrows(c: Config, t: seq<string>)
    requires t != [] && Routing(t[0]) && Statement(c, t).Ok?
    ensures Grows(c, Statement(c, t).cfg)
  {
  }

  lemma OtherGrows(c: Config, t: seq<string>)
    requires t != [] && !Routing(t[0]) && Statement(c, t).Ok?
    ensures Grows(c, Statement(c, t).cfg)
  {
  }

  /** So names that have come to collide stay in collision. */
  lemma NamesStay(c: Config, d: Config)
    requires Grows(c, d) && !NamesUnique(c)
    ensures !NamesUnique(d)
  {
    if !Unique(DevNames(c.devs)) { UniqueFront(DevNames(c.devs), DevNames(d.devs)); }
    else if !Unique(LinkNames(c.links)) { UniqueFront(LinkNames(c.links), LinkNames(d.links)); }
    else if !Unique(PoolNames(c.pools)) { UniqueFront(PoolNames(c.pools), PoolNames(d.pools)); }
    else { UniqueFront(TraceNames(c.traces), TraceNames(d.traces)); }
  }

  // ---- the parse ----------------------------------------------------------------------------------------------

  /** A line of the member: its tokens, or too long or too many. */
  type Logical = Option<seq<string>>

  function UpTo(s: string, c: char): (n: nat)
    ensures n <= |s| && (forall i :: 0 <= i < n ==> s[i] != c) && (n < |s| ==> s[n] == c)
  {
    if s == "" || s[0] == c then 0 else 1 + UpTo(s[1..], c)
  }

  lemma {:induction false} UpToIs(s: string, c: char, n: nat)
    requires n <= |s| && (forall i :: 0 <= i < n ==> s[i] != c) && (n < |s| ==> s[n] == c)
    ensures UpTo(s, c) == n
  {
    if n > 0 { UpToIs(s[1..], c, n - 1); }
  }

  function Read(line: string): Logical {
    var toks := Tokens(line[..UpTo(line, ';')]);
    if |line| > LINE_MAX || |toks| > MAX_TOK then None else Some(toks)
  }

  function Behind(s: string, n: nat): string
    requires n <= |s|
  {
    if n < |s| then s[n + 1..] else ""
  }

  function Lines(s: string): seq<Logical>
    decreases |s|
  {
    if s == "" then []
    else
      var n := UpTo(s, '\n');
      [Read(s[..n])] + Lines(Behind(s, n))
  }

  datatype Outcome = Done(cfg: Config) | Failed(line: nat, code: nat)

  /** The fold: all of the member or nothing, and at least one HOME. */
  function Parsed(c: Config, ls: seq<Logical>, line: nat): Outcome
    decreases |ls|
  {
    if ls == [] then (if c.homes == [] then Failed(0, MISSING) else Done(c))
    else if ls[0].None? then Failed(line + 1, SYNTAX)
    else
      var r := Statement(c, ls[0].value);
      if r.Bad? then Failed(line + 1, r.code) else Parsed(r.cfg, ls[1..], line + 1)
  }

  /** No line enters an over-long name whose cut is known by then. */
  predicate NoneCollide(c: Config, ls: seq<Logical>)
    decreases |ls|
  {
    ls == [] || ls[0].None? || Statement(c, ls[0].value).Bad?
    || (!Collides(c, ls[0].value) && NoneCollide(Statement(c, ls[0].value).cfg, ls[1..]))
  }

  /** A successful parse is a valid configuration: every count within its maximum, every value within its range and
      every name within its field, a HOME, no address and no port twice; */
  lemma {:induction false} ParsedValid(c: Config, ls: seq<Logical>, line: nat)
    requires Bounded(c) && KeysUnique(c) && Ranged(c) && Parsed(c, ls, line).Done?
    ensures var d := Parsed(c, ls, line).cfg; Bounded(d) && KeysUnique(d) && Ranged(d) && d.homes != []
    decreases |ls|
  {
    if ls != [] {
      var t := ls[0].value;
      StatementKeeps(c, t);
      ParsedValid(Statement(c, t).cfg, ls[1..], line + 1);
    }
  }

  lemma {:induction false} CollisionStays(c: Config, ls: seq<Logical>, line: nat)
    requires !NamesUnique(c) && Parsed(c, ls, line).Done?
    ensures !NamesUnique(Parsed(c, ls, line).cfg)
    decreases |ls|
  {
    if ls != [] {
      var t := ls[0].value;
      if t != [] && Routing(t[0]) { RoutingGrows(c, t); } else if t != [] { OtherGrows(c, t); }
      NamesStay(c, Statement(c, ls[0].value).cfg);
      CollisionStays(Statement(c, ls[0].value).cfg, ls[1..], line + 1);
    }
  }

  /** and no name twice if and only if no line enters an over-long name whose cut is already known. */
  lemma {:induction false} ParsedNames(c: Config, ls: seq<Logical>, line: nat)
    requires NamesUnique(c) && Parsed(c, ls, line).Done?
    ensures NamesUnique(Parsed(c, ls, line).cfg) <==> NoneCollide(c, ls)
    decreases |ls|
  {
    if ls != [] {
      var t := ls[0].value;
      NamesKept(c, t);
      if Collides(c, t) { CollisionStays(Statement(c, t).cfg, ls[1..], line + 1); }
      else { ParsedNames(Statement(c, t).cfg, ls[1..], line + 1); }
    }
  }

  /** A failed parse names the first line at fault: every line before it was accepted. */
  lemma {:induction false} FirstFault(c: Config, ls: seq<Logical>, line: nat)
    requires Parsed(c, ls, line).Failed? && Parsed(c, ls, line).line > 0
    ensures var k := Parsed(c, ls, line).line - line - 1;
      0 <= k < |ls| && Parsed(c, ls[..k], line) != Parsed(c, ls[..k + 1], line) && Parsed(c, ls[..k + 1], line) == Parsed(c, ls, line)
    decreases |ls|
  {
    if ls[0].None? || Statement(c, ls[0].value).Bad? {
      assert ls[..0] == [] && ls[..1][0] == ls[0];
    } else {
      var d := Statement(c, ls[0].value).cfg;
      FirstFault(d, ls[1..], line + 1);
      var k := Parsed(c, ls, line).line - line - 1;
      assert ls[..k][0] == ls[0] && ls[..k + 1][0] == ls[0];
      assert ls[..k][1..] == ls[1..][..k - 1] && ls[..k + 1][1..] == ls[1..][..k];
    }
  }

  /** What a caller sees: the configuration, zeroed on any error, and whether it carries the eyecatcher. */
  datatype Report = Report(cfg: Config, stamped: bool, line: nat, code: nat)

  function Reported(o: Outcome): Report {
    if o.Done? then Report(o.cfg, true, 0, 0) else Report(ZERO, false, o.line, o.code)
  }

  /** Copy one physical line, bounded; `pos` stops behind its newline. */
  method CopyLine(buf: string, from: nat) returns (line: Option<string>, pos: nat)
    requires from < |buf|
    ensures from < pos <= |buf|
    ensures var n := UpTo(buf[from..], '\n');
      if n > LINE_MAX then line.None? else line == Some(buf[from..][..n]) && buf[pos..] == Behind(buf[from..], n)
  {
    ghost var s := buf[from..];
    pos := from;
    while pos < |buf| && buf[pos] != '\n'
      invariant from <= pos <= |buf| && pos - from <= LINE_MAX
      invariant forall i :: 0 <= i < pos - from ==> s[i] != '\n'
    {
      assert buf[pos] == s[pos - from];
      if pos - from >= LINE_MAX {
        TooLong(s, pos - from);
        return None, pos + 1;
      }
      pos := pos + 1;
    }
    UpToIs(s, '\n', pos - from);
    line := Some(buf[from..pos]);
    assert buf[from..pos] == s[..pos - from];
    if pos < |buf| {
      pos := pos + 1;
    }
  }

  lemma TooLong(s: string, k: nat)
    requires k < |s| && forall i :: 0 <= i <= k ==> s[i] != '\n'
    ensures UpTo(s, '\n') > k
  {
  }

  /** Cut a line at its comment. */
  method StripComment(line: string) returns (text: string)
    ensures text == line[..UpTo(line, ';')]
  {
    var i := 0;
    while i < |line| && line[i] != ';'
      invariant i <= |line| && forall j :: 0 <= j < i ==> line[j] != ';'
    {
      i := i + 1;
    }
    UpToIs(line, ';', i);
    text := line[..i];
  }

  /** One line of the member, taken apart. */
  method ReadLine(buf: string, from: nat) returns (l: Logical, pos: nat)
    requires from < |buf|
    ensures from < pos <= |buf|
    ensures Lines(buf[from..]) != [] && l == Lines(buf[from..])[0] && (l.Some? ==> Lines(buf[from..])[1..] == Lines(buf[pos..]))
  {
    var line;
    line, pos := CopyLine(buf, from);
    if line.None? {
      return None, pos;
    }
    var text := StripComment(line.value);
    l := Tokenize(text, MAX_TOK);
  }

  lemma ReportValid(ls: seq<Logical>)
    ensures var r := Reported(Parsed(ZERO, ls, 0));
      if r.stamped then Bounded(r.cfg) && KeysUnique(r.cfg) && Ranged(r.cfg) && r.cfg.homes != [] && (NamesUnique(r.cfg) <==> NoneCollide(ZERO, ls))
      else r.cfg == ZERO
  {
    if Parsed(ZERO, ls, 0).Done? {
      ParsedValid(ZERO, ls, 0);
      ParsedNames(ZERO, ls, 0);
    }
  }

  /** One line parsed: the fold goes on behind it, or has ended. */
  method ParseLine(c: Config, buf: string, from: nat, line: nat) returns (rc: Result, pos: nat)
    requires from < |buf|
    ensures from < pos <= |buf|
    ensures Parsed(c, Lines(buf[from..]), line) == if rc.Ok? then Parsed(rc.cfg, Lines(buf[pos..]), line + 1) else Failed(line + 1, rc.code)
  {
    var l;
    l, pos := ReadLine(buf, from);
    rc := if l.None? then Bad(SYNTAX) else Statement(c, l.value);
  }

  method ParseLines(buf: string) returns (o: Outcome)
    ensures o == Parsed(ZERO, Lines(buf), 0)
  {
    var cfg, pos, line := ZERO, 0, 0;
    ghost var goal := Parsed(ZERO, Lines(buf), 0);
    assert buf[0..] == buf;
    while pos < |buf|
      invariant pos <= |buf| && goal == Parsed(cfg, Lines(buf[pos..]), line)
    {
      var rc;
      rc, pos := ParseLine(cfg, buf, pos, line);
      line := line + 1;
      if rc.Bad? {
        return Failed(line, rc.code);
      }
      cfg := rc.cfg;
    }
    o := if cfg.homes == [] then Failed(0, MISSING) else Done(cfg);
  }

  /** `cfg_parse`: line by line until one is refused; a configuration that is valid, or nothing. */
  method Parse(buf: string) returns (r: Report)
    ensures r == Reported(Parsed(ZERO, Lines(buf), 0))
    ensures r.stamped ==> Bounded(r.cfg) && KeysUnique(r.cfg) && Ranged(r.cfg) && r.cfg.homes != [] && (NamesUnique(r.cfg) <==> NoneCollide(ZERO, Lines(buf)))
    ensures !r.stamped ==> r.cfg == ZERO
  {
    var o := ParseLines(buf);
    ReportValid(Lines(buf));
    r := Reported(o);
  }
}
