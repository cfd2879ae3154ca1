/** The config a node renders for one resource, line by line. */
module ResFile {
  import opened BarrierTypes
  import opened Sequences
  import opened Text
  import opened ConfigText

  datatype Peer = Peer(node: string, nodeID: int, address: string, ipv6: bool, diskless: bool, client: bool)

  datatype Resource = Resource(
    name: string,
    port: int,
    minor: int,
    secret: string,
    freeze: bool,
    localNode: string,
    localDisk: string,
    discardGranularity: int,
    clientDiscardGranularity: int,
    peers: seq<Peer>)

  function Escape(c: char): string {
    if c == '\n' then "\\n" else if c == '\r' then "\\r" else if c == '\t' then "\\t"
    else if c == '"' then "\\\"" else if c == '\\' then "\\\\" else [c]
  }

  function EscapeAll(s: string): (r: string)
    ensures '\n' !in r
  {
    if s == "" then "" else Escape(s[0]) + EscapeAll(s[1..])
  }

  /** A quoted string; escapes of other unprintable characters are not spelled out. */
  function Quote(s: string): (r: string)
    ensures '\n' !in r
  {
    "\"" + EscapeAll(s) + "\""
  }

  function Close(indent: nat): ConfigLine {
    ConfigLine(indent, "}", [])
  }

  function CommentLine(name: string): ConfigLine {
    ConfigLine(
      0, "#", ["generated", "by", "miroir", "\U{2014}", "do", "not", "edit", "(source:", "MiroirVolume", name + ")"])
  }

  function HeaderLines(name: string): seq<ConfigLine> {
    [CommentLine(name)]
    + [ConfigLine(0, "resource", [Quote(name), "{"]), ConfigLine(4, "options", ["{"]),
       ConfigLine(8, "auto-promote", ["yes;"])]
  }

  function QuorumLines(freeze: bool): seq<ConfigLine> {
    if freeze then [ConfigLine(8, "quorum", ["majority;"]), ConfigLine(8, "on-no-quorum", ["io-error;"]), Close(4)]
    else [ConfigLine(8, "quorum", ["off;"]), Close(4)]
  }

  function NetLines(secret: string): seq<ConfigLine> {
    [ConfigLine(4, "net", ["{"]), ConfigLine(8, "protocol", ["C;"])]
    + if secret == "" then []
      else [ConfigLine(8, "cram-hmac-alg", ["sha1;"]), ConfigLine(8, "shared-secret", [Quote(secret) + ";"])]
  }

  function SplitBrainLines(): seq<ConfigLine> {
    [ConfigLine(8, "after-sb-0pri", ["disconnect;"]), ConfigLine(8, "after-sb-1pri", ["disconnect;"]),
     ConfigLine(8, "after-sb-2pri", ["disconnect;"]), Close(4)]
  }

  function DiskOption(word: string, value: int): seq<ConfigLine> {
    if value <= 0 then []
    else [ConfigLine(12, "disk", ["{"]), ConfigLine(16, word, [Format(value) + ";"]), Close(12)]
  }

  function DisklessLines(r: Resource, p: Peer): seq<ConfigLine> {
    [ConfigLine(12, "disk", ["none;"])]
    + (if p.client then [ConfigLine(12, "tiebreaker", ["no;"])] else [])
    + (if p.node == r.localNode then DiskOption("discard-granularity", r.clientDiscardGranularity) else [])
  }

  function DiskfulLines(r: Resource, p: Peer): seq<ConfigLine> {
    var here := p.node == r.localNode;
    [ConfigLine(12, "disk", [Quote(if here then r.localDisk else "/dev/null") + ";"]),
     ConfigLine(12, "meta-disk", ["internal;"])]
    + (if here then DiskOption("rs-discard-granularity", r.discardGranularity) else [])
  }

  function AddressArgs(r: Resource, p: Peer): seq<string> {
    if p.ipv6 then ["ipv6", "[" + p.address + "]:" + Format(r.port) + ";"]
    else ["ipv4", p.address + ":" + Format(r.port) + ";"]
  }

  function PeerHead(r: Resource, p: Peer): seq<ConfigLine> {
    [ConfigLine(4, "on", [Quote(p.node), "{"]), ConfigLine(8, "node-id", [Format(p.nodeID) + ";"]),
     ConfigLine(8, "address", AddressArgs(r, p)), ConfigLine(8, "volume", ["0", "{"])]
  }

  function PeerTail(r: Resource, p: Peer): seq<ConfigLine> {
    (if p.diskless then DisklessLines(r, p) else DiskfulLines(r, p)) + [Close(8), Close(4)]
  }

  function PeerLines(r: Resource, p: Peer): seq<ConfigLine> {
    PeerHead(r, p) + [DeviceLine(r.minor)] + PeerTail(r, p)
  }

  function AllPeerLines(r: Resource, peers: seq<Peer>): seq<ConfigLine> {
    if peers == [] then [] else PeerLines(r, peers[0]) + AllPeerLines(r, peers[1..])
  }

  function HostArgs(peers: seq<Peer>): (args: seq<string>)
    ensures forall a <- args :: '\n' !in a
  {
    if peers == [] then [";"] else if |peers| == 1 then [Quote(peers[0].node) + ";"]
    else [Quote(peers[0].node)] + HostArgs(peers[1..])
  }

  function FooterLines(peers: seq<Peer>): seq<ConfigLine> {
    [ConfigLine(4, "connection-mesh", ["{"]), ConfigLine(8, "hosts", HostArgs(peers)), Close(4), Close(0)]
  }

  function FrontLines(r: Resource): seq<ConfigLine> {
    HeaderLines(r.name) + QuorumLines(r.freeze) + NetLines(r.secret) + SplitBrainLines()
  }

  function ConfigLines(r: Resource): seq<ConfigLine> {
    FrontLines(r) + AllPeerLines(r, r.peers) + FooterLines(r.peers)
  }

  /** The config of a resource whose peers are listed by node id. */
  function Render(r: Resource): string {
    JoinLines(TextsOf(ConfigLines(r)))
  }

  // ----- every line but the device lines is ordinary -----

  lemma CommentOrdinary(name: string)
    requires '\n' !in name
    ensures Ordinary(CommentLine(name))
  {
  }

  lemma HeaderOrdinary(name: string)
    requires '\n' !in name
    ensures AllOrdinary(HeaderLines(name))
  {
    CommentOrdinary(name);
    assert OtherWord("resource") && OtherWord("options") && OtherWord("auto-promote");
  }

  lemma QuorumOrdinary(freeze: bool)
    ensures AllOrdinary(QuorumLines(freeze))
  {
    assert OtherWord("quorum") && OtherWord("on-no-quorum");
  }

  lemma NetOrdinary(secret: string)
    ensures AllOrdinary(NetLines(secret))
  {
    assert OtherWord("net") && OtherWord("protocol") && OtherWord("cram-hmac-alg") && OtherWord("shared-secret");
  }

  lemma SplitBrainOrdinary()
    ensures AllOrdinary(SplitBrainLines())
  {
    assert OtherWord("after-sb-0pri") && OtherWord("after-sb-1pri") && OtherWord("after-sb-2pri");
  }

  lemma FooterOrdinary(peers: seq<Peer>)
    ensures AllOrdinary(FooterLines(peers))
  {
    assert OtherWord("connection-mesh") && OtherWord("hosts");
  }

  lemma OptionOrdinary(word: string, value: int)
    requires OtherWord(word)
    ensures AllOrdinary(DiskOption(word, value))
  {
    FormatWhole(value);
    assert OtherWord("disk");
  }

  lemma DisklessOrdinary(r: Resource, p: Peer)
    ensures AllOrdinary(DisklessLines(r, p))
  {
    assert OtherWord("disk") && OtherWord("tiebreaker");
    assert OtherWord("discard-granularity");
    OptionOrdinary("discard-granularity", r.clientDiscardGranularity);
  }

  lemma DiskfulOrdinary(r: Resource, p: Peer)
    ensures AllOrdinary(DiskfulLines(r, p))
  {
    assert OtherWord("disk") && OtherWord("meta-disk");
    assert OtherWord("rs-discard-granularity");
    OptionOrdinary("rs-discard-granularity", r.discardGranularity);
  }

  lemma PeerTailOrdinary(r: Resource, p: Peer)
    ensures AllOrdinary(PeerTail(r, p))
  {
    DisklessOrdinary(r, p);
    DiskfulOrdinary(r, p);
  }

  lemma PeerHeadOrdinary(r: Resource, p: Peer)
    requires '\n' !in p.address
    ensures AllOrdinary(PeerHead(r, p))
  {
    FormatWhole(r.port);
    FormatWhole(p.nodeID);
    assert OtherWord("on") && OtherWord("node-id") && OtherWord("address") && OtherWord("volume");
  }

  // ----- main result -----

  function Repeat(m: int, n: nat): seq<int> {
    if n == 0 then [] else [m] + Repeat(m, n - 1)
  }

  lemma {:induction false} PeersMinors(r: Resource, peers: seq<Peer>)
    requires -0x8000_0000 <= r.minor < 0x8000_0000 && forall p <- peers :: '\n' !in p.address
    ensures MinorsOf(AllPeerLines(r, peers)) == Repeat(r.minor, |peers|)
    ensures OneMinor(AllPeerLines(r, peers), r.minor)
  {
    if peers != [] {
      var p := peers[0];
      PeerHeadOrdinary(r, p);
      PeerTailOrdinary(r, p);
      Framed(PeerHead(r, p), r.minor, PeerTail(r, p));
      PeersMinors(r, peers[1..]);
      FlatConcat(PeerLines(r, p), AllPeerLines(r, peers[1..]), MinorOfConfigLine);
    }
  }

  lemma FrontOrdinary(r: Resource)
    requires '\n' !in r.name
    ensures AllOrdinary(FrontLines(r))
  {
    HeaderOrdinary(r.name);
    QuorumOrdinary(r.freeze);
    NetOrdinary(r.secret);
    SplitBrainOrdinary();
  }

  /** Every minor parsed from a rendered config is the one rendered, once per peer: no name,
      address, secret or path on a line of its own can add another. */
  lemma RenderedMinor(r: Resource)
    requires '\n' !in r.name && -0x8000_0000 <= r.minor < 0x8000_0000 && forall p <- r.peers :: '\n' !in p.address
    ensures MinorsInText(Render(r)) == Repeat(r.minor, |r.peers|)
  {
    var front, peers, footer := FrontLines(r), AllPeerLines(r, r.peers), FooterLines(r.peers);
    FrontOrdinary(r);
    FooterOrdinary(r.peers);
    PeersMinors(r, r.peers);
    FlatConcat(front + peers, footer, MinorOfConfigLine);
    FlatConcat(front, peers, MinorOfConfigLine);
    OrdinaryMinors(front);
    OrdinaryMinors(footer);
    ReadBack(ConfigLines(r), r.minor);
  }
}
