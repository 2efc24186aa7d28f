/**
 Properties of the rendered `mosquitto.conf`: where each bridge stanza sits,
 which brokers the configuration bridges to (exactly the peers, in order,
 never itself), the lone-broker comment, and which preamble lines depend on
 the broker at all.
 */
module RenderProps {
  import Decimal
  import Settings
  import Brokers
  import Text
  import opened MosquittoConf

  /** Stanza `i` occupies lines `8 * i` to `8 * i + 7` of the bridge part. */
  lemma {:induction false} StanzasAt(current: string, peers: seq<string>, i: int)
    requires 0 <= i < |peers|
    ensures Stanzas(current, peers)[8 * i .. 8 * i + 8] == Stanza(current, peers[i])
    decreases |peers|
  {
    var head := Stanza(current, peers[0]);
    var rest := Stanzas(current, peers[1..]);
    assert Stanzas(current, peers) == head + rest;
    if i > 0 {
      StanzasAt(current, peers[1..], i - 1);
      assert (head + rest)[8 * i .. 8 * i + 8] == rest[8 * (i - 1) .. 8 * (i - 1) + 8];
    }
  }

  /** Slicing past a prefix slices the rest. */
  lemma SliceAfter<T>(a: seq<T>, b: seq<T>, x: int, y: int)
    requires 0 <= x <= y <= |b|
    ensures (a + b)[|a| + x .. |a| + y] == b[x..y]
  {
  }

  /** The eight lines of the bridge from `current` to `peer`. */
  function StanzaText(current: string, peer: string): seq<string> {
    [ "connection " + peer,
      "address " + peer + ".mesh:18883",
      "topic # both 2",
      "try_private true",
      "bridge_cafile /mosquitto/certs/ca.crt",
      "bridge_certfile /mosquitto/certs/" + current + ".crt",
      "bridge_keyfile /mosquitto/certs/" + current + ".key",
      "" ]
  }

  lemma StanzaIsText(current: string, peer: string)
    ensures Stanza(current, peer) == StanzaText(current, peer)
  {
    AddressSuffixText();
  }

  /** Line layout of the bridge to the `i`-th peer: connection name and
      `peer.mesh:18883` address, all topics both ways at QoS 2, private
      bridge protocol, and the CA with `current`'s own certificate and key. */
  lemma RenderStanza(current: string, brokers: seq<string>, i: int)
    requires 0 <= i < |Brokers.Peers(current, brokers)|
    ensures
      Render(current, brokers)[23 + 8 * i .. 23 + 8 * i + 8] ==
        StanzaText(current, Brokers.Peers(current, brokers)[i])
  {
    var peers := Brokers.Peers(current, brokers);
    var head := Preamble(current);
    var tail := Stanzas(current, peers);
    assert Render(current, brokers) == head + tail;
    SliceAfter(head, tail, 8 * i, 8 * i + 8);
    StanzasAt(current, peers, i);
    StanzaIsText(current, peers[i]);
  }

  /** A broker with no peer gets the explanatory comment and nothing else
      after the bridge header; with a peer, the comment never appears. */
  lemma LonelyComment(current: string, brokers: seq<string>)
    ensures Brokers.Peers(current, brokers) == [] ==>
      Render(current, brokers)[22..] == [BridgeHeader, NoPeersComment]
    ensures NoPeersComment in Render(current, brokers) <==> Brokers.Peers(current, brokers) == []
  {
    var peers := Brokers.Peers(current, brokers);
    var r := Render(current, brokers);
    assert r == Preamble(current) + Bridges(current, brokers);
    PreambleLacksComment(current);
    if peers != [] {
      StanzasLackComment(current, peers);
    }
  }

  lemma GeneralLacksComment()
    ensures NoPeersComment !in GeneralBlock()
  {
    var g := GeneralBlock();
    assert NoPeersComment[2] == 'N' && g[0][2] == '-';
    assert g[1][0] == 'p' && g[2][0] == 'p' && g[3][0] == 'a' && g[4][0] == 'a';
    assert g[5][0] == 'm' && g[6][0] == 'c' && g[7][0] == 'l' && g[8][0] == 't';
  }

  lemma ListenerLacksComment(current: string)
    ensures NoPeersComment !in ListenerBlock(current)
  {
    var l := ListenerBlock(current);
    assert NoPeersComment[2] == 'N' && l[0][2] == '-';
    assert l[1][0] == 'l' && l[2][0] == 'p' && l[3][0] == 'c' && l[4][0] == 'c';
    assert l[5][0] == 'k' && l[6][0] == 'r' && l[7][0] == 'l' && l[8][0] == 'p' && l[9][0] == 'c';
    assert l[10][0] == 'c' && l[11][0] == 'k' && l[12][0] == 'r';
  }

  lemma PreambleLacksComment(current: string)
    ensures NoPeersComment !in Preamble(current)
  {
    GeneralLacksComment();
    ListenerLacksComment(current);
    assert BridgeHeader[2] == '-' && NoPeersComment[2] == 'N';
  }

  lemma {:induction false} StanzasLackComment(current: string, peers: seq<string>)
    ensures NoPeersComment !in Stanzas(current, peers)
    decreases |peers|
  {
    if peers != [] {
      var s := Stanza(current, peers[0]);
      forall k | 0 <= k < 8 ensures s[k] != NoPeersComment {
        assert |s[k]| == 0 || s[k][0] != '#';
      }
      StanzasLackComment(current, peers[1..]);
    }
  }

  /** No line is framed as `pre…suf` when none of them is. */
  lemma {:induction false} CapturesNone(pre: string, suf: string, lines: seq<string>)
    requires forall k :: 0 <= k < |lines| ==> !Text.Framed(pre, suf, lines[k])
    ensures Text.Captures(pre, suf, lines) == []
    decreases |lines|
  {
    if lines != [] {
      CapturesNone(pre, suf, lines[1..]);
    }
  }

  /** A line that disagrees with `pre` at position `k` is not framed by it. */
  lemma Mismatch(pre: string, suf: string, line: string, k: int)
    requires 0 <= k < |pre| && k < |line|
    requires line[k] != pre[k]
    ensures !Text.Framed(pre, suf, line)
  {
    if |pre| <= |line| {
      assert line[..|pre|][k] == line[k];
    }
  }

  /** No line of `lines` starts with `connection `: position 0 or, for
      lines starting with `c`, position 1 or 10 tells them apart. */
  lemma NoConnectionLines(lines: seq<string>)
    requires forall k :: 0 <= k < |lines| ==>
      |lines[k]| > 10 && (lines[k][0] != 'c' || lines[k][1] != 'o' || lines[k][10] != ' ')
    ensures Text.Captures(ConnectionPrefix, "", lines) == []
  {
    forall k | 0 <= k < |lines| ensures !Text.Framed(ConnectionPrefix, "", lines[k]) {
      if lines[k][0] != 'c' {
        Mismatch(ConnectionPrefix, "", lines[k], 0);
      } else if lines[k][1] != 'o' {
        Mismatch(ConnectionPrefix, "", lines[k], 1);
      } else {
        Mismatch(ConnectionPrefix, "", lines[k], 10);
      }
    }
    CapturesNone(ConnectionPrefix, "", lines);
  }

  /** No line of `lines` starts with `address `: position 0 or 1 tells them apart. */
  lemma NoAddressLines(lines: seq<string>)
    requires forall k :: 0 <= k < |lines| ==>
      |lines[k]| > 1 && (lines[k][0] != 'a' || lines[k][1] != 'd')
    ensures Text.Captures(AddressPrefix, AddressSuffix, lines) == []
  {
    forall k | 0 <= k < |lines| ensures !Text.Framed(AddressPrefix, AddressSuffix, lines[k]) {
      if lines[k][0] != 'a' {
        Mismatch(AddressPrefix, AddressSuffix, lines[k], 0);
      } else {
        Mismatch(AddressPrefix, AddressSuffix, lines[k], 1);
      }
    }
    CapturesNone(AddressPrefix, AddressSuffix, lines);
  }

  lemma GeneralNoConnections()
    ensures Text.Captures(ConnectionPrefix, "", GeneralBlock()) == []
  {
    var g := GeneralBlock();
    assert g[0][0] == '#' && g[1][0] == 'p' && g[2][0] == 'p' && g[3][0] == 'a' && g[4][0] == 'a';
    assert g[5][0] == 'm' && g[7][0] == 'l' && g[8][0] == 't' && g[6][10] == '_';
    NoConnectionLines(g);
  }

  lemma GeneralNoAddresses()
    ensures Text.Captures(AddressPrefix, AddressSuffix, GeneralBlock()) == []
  {
    var g := GeneralBlock();
    assert g[0][0] == '#' && g[1][0] == 'p' && g[2][0] == 'p' && g[3][1] == 'l' && g[4][1] == 'c';
    assert g[5][0] == 'm' && g[6][0] == 'c' && g[7][0] == 'l' && g[8][0] == 't';
    NoAddressLines(g);
  }

  lemma ListenerNoConnections(current: string)
    ensures Text.Captures(ConnectionPrefix, "", ListenerBlock(current)) == []
  {
    var l := ListenerBlock(current);
    assert |l[1]| > 10 && |l[7]| > 10;
    assert l[0][0] == '#' && l[1][0] == 'l' && l[2][0] == 'p' && l[5][0] == 'k' && l[6][0] == 'r';
    assert l[7][0] == 'l' && l[8][0] == 'p' && l[11][0] == 'k' && l[12][0] == 'r';
    assert l[3][1] == 'a' && l[4][1] == 'e' && l[9][1] == 'a' && l[10][1] == 'e';
    NoConnectionLines(l);
  }

  lemma ListenerNoAddresses(current: string)
    ensures Text.Captures(AddressPrefix, AddressSuffix, ListenerBlock(current)) == []
  {
    var l := ListenerBlock(current);
    assert l[0][0] == '#' && l[1][0] == 'l' && l[2][0] == 'p' && l[3][0] == 'c' && l[4][0] == 'c';
    assert l[5][0] == 'k' && l[6][0] == 'r' && l[7][0] == 'l' && l[8][0] == 'p' && l[9][0] == 'c';
    assert l[10][0] == 'c' && l[11][0] == 'k' && l[12][0] == 'r';
    NoAddressLines(l);
  }

  /** The preamble holds neither a `connection` nor an `address` line. */
  lemma PreambleCapturesNothing(current: string)
    ensures Text.Captures(ConnectionPrefix, "", Preamble(current)) == []
    ensures Text.Captures(AddressPrefix, AddressSuffix, Preamble(current)) == []
  {
    var g := GeneralBlock();
    var l := ListenerBlock(current);
    GeneralNoConnections();
    GeneralNoAddresses();
    ListenerNoConnections(current);
    ListenerNoAddresses(current);
    NoConnectionLines([BridgeHeader]);
    NoAddressLines([BridgeHeader]);
    Text.CapturesAppend(ConnectionPrefix, "", g, l);
    Text.CapturesAppend(ConnectionPrefix, "", g + l, [BridgeHeader]);
    Text.CapturesAppend(AddressPrefix, AddressSuffix, g, l);
    Text.CapturesAppend(AddressPrefix, AddressSuffix, g + l, [BridgeHeader]);
  }

  /** One stanza yields its peer once as a connection and once as an address. */
  lemma StanzaCaptures(current: string, peer: string)
    ensures Text.Captures(ConnectionPrefix, "", Stanza(current, peer)) == [peer]
    ensures Text.Captures(AddressPrefix, AddressSuffix, Stanza(current, peer)) == [peer]
  {
    var s := Stanza(current, peer);
    var tail := s[2..];
    forall k | 0 <= k < |tail|
      ensures !Text.Framed(ConnectionPrefix, "", tail[k])
      ensures !Text.Framed(AddressPrefix, AddressSuffix, tail[k])
    {
      if tail[k] != "" {
        Mismatch(ConnectionPrefix, "", tail[k], 0);
        Mismatch(AddressPrefix, AddressSuffix, tail[k], 0);
      }
    }
    CapturesNone(ConnectionPrefix, "", tail);
    CapturesNone(AddressPrefix, AddressSuffix, tail);
    Text.FramedBuild(ConnectionPrefix, "", peer);
    assert ConnectionLine(peer) == ConnectionPrefix + peer + "";
    Text.FramedBuild(AddressPrefix, AddressSuffix, peer);
    Mismatch(ConnectionPrefix, "", AddressLine(peer), 0);
    Mismatch(AddressPrefix, AddressSuffix, ConnectionLine(peer), 0);
    assert s == [ConnectionLine(peer)] + ([AddressLine(peer)] + tail);
    Text.CapturesAppend(ConnectionPrefix, "", [ConnectionLine(peer)], [AddressLine(peer)] + tail);
    Text.CapturesAppend(ConnectionPrefix, "", [AddressLine(peer)], tail);
    Text.CapturesAppend(AddressPrefix, AddressSuffix, [ConnectionLine(peer)], [AddressLine(peer)] + tail);
    Text.CapturesAppend(AddressPrefix, AddressSuffix, [AddressLine(peer)], tail);
  }

  lemma {:induction false} StanzasCaptures(current: string, peers: seq<string>)
    ensures Text.Captures(ConnectionPrefix, "", Stanzas(current, peers)) == peers
    ensures Text.Captures(AddressPrefix, AddressSuffix, Stanzas(current, peers)) == peers
    decreases |peers|
  {
    if peers != [] {
      var s := Stanza(current, peers[0]);
      var rest := Stanzas(current, peers[1..]);
      StanzaCaptures(current, peers[0]);
      StanzasCaptures(current, peers[1..]);
      Text.CapturesAppend(ConnectionPrefix, "", s, rest);
      Text.CapturesAppend(AddressPrefix, AddressSuffix, s, rest);
      assert peers == [peers[0]] + peers[1..];
    }
  }

  /** Reading the `connection` lines of the configuration back gives exactly
      the peers, in list order: one bridge per other broker, none to itself. */
  lemma RenderConnections(current: string, brokers: seq<string>)
    ensures Text.Captures(ConnectionPrefix, "", Render(current, brokers)) == Brokers.Peers(current, brokers)
    ensures Text.Captures(AddressPrefix, AddressSuffix, Render(current, brokers)) == Brokers.Peers(current, brokers)
  {
    var peers := Brokers.Peers(current, brokers);
    var b := Bridges(current, brokers);
    PreambleCapturesNothing(current);
    Text.CapturesAppend(ConnectionPrefix, "", Preamble(current), b);
    Text.CapturesAppend(AddressPrefix, AddressSuffix, Preamble(current), b);
    if peers == [] {
      Mismatch(ConnectionPrefix, "", NoPeersComment, 0);
      Mismatch(AddressPrefix, AddressSuffix, NoPeersComment, 0);
      CapturesNone(ConnectionPrefix, "", b);
      CapturesNone(AddressPrefix, AddressSuffix, b);
    } else {
      StanzasCaptures(current, peers);
    }
  }

  /** The configuration has a `connection q` line, and an
      `address q.mesh:18883` line, exactly when `q` is another listed broker. */
  lemma BridgesExactlyPeers(current: string, brokers: seq<string>, q: string)
    ensures "connection " + q in Render(current, brokers) <==> q in brokers && q != current
    ensures "address " + q + ".mesh:18883" in Render(current, brokers) <==> q in brokers && q != current
  {
    RenderConnections(current, brokers);
    Text.CapturesMember(ConnectionPrefix, "", Render(current, brokers), q);
    Text.CapturesMember(AddressPrefix, AddressSuffix, Render(current, brokers), q);
    assert ConnectionPrefix + q + "" == "connection " + q;
    AddressSuffixText();
    assert AddressPrefix + q + AddressSuffix == "address " + q + ".mesh:18883";
  }

  /** A broker never bridges to itself. */
  lemma NoSelfBridge(current: string, brokers: seq<string>)
    ensures "connection " + current !in Render(current, brokers)
    ensures "address " + current + ".mesh:18883" !in Render(current, brokers)
  {
    BridgesExactlyPeers(current, brokers, current);
  }

  /** In a list without repeats that names `current`, there are exactly
      `|brokers| - 1` bridges, each to a different broker. */
  lemma BridgeCount(current: string, brokers: seq<string>)
    requires Brokers.Distinct(brokers)
    requires current in brokers
    ensures |Text.Captures(ConnectionPrefix, "", Render(current, brokers))| == |brokers| - 1
    ensures Brokers.Distinct(Text.Captures(ConnectionPrefix, "", Render(current, brokers)))
  {
    RenderConnections(current, brokers);
    Brokers.PeersCount(current, brokers);
    Brokers.PeersDistinct(current, brokers);
  }

  /** For a sorted broker list the bridges come out in ascending name order. */
  lemma BridgesInNameOrder(current: string, brokers: seq<string>)
    requires Brokers.StrictlySorted(brokers)
    ensures Brokers.StrictlySorted(Text.Captures(ConnectionPrefix, "", Render(current, brokers)))
  {
    RenderConnections(current, brokers);
    Brokers.PeersSorted(current, brokers);
  }

  /** The general settings as the configuration spells them out: persistent
      storage under `/mosquitto/data/`, anonymous clients under the ACL, the
      13370-byte message limit, connection logging with timestamps, and
      Nagle's algorithm off. */
  function GeneralText(): seq<string> {
    [ "# --- General Settings ---",
      "persistence true",
      "persistence_location /mosquitto/data/",
      "allow_anonymous true",
      "acl_file /mosquitto/config/acl.conf",
      "message_size_limit 13370",
      "connection_messages true",
      "log_timestamp true",
      "tcp_nodelay true\n" ]
  }

  /** The two listeners as the configuration spells them out: MQTT on 18883
      demanding a client certificate, WebSockets on 18443 not demanding one,
      both with the mesh CA and `current`'s certificate and key. */
  function ListenerText(current: string): seq<string> {
    [ "# --- Listeners ---",
      "listener 18883",
      "protocol mqtt",
      "cafile /mosquitto/certs/ca.crt",
      "certfile /mosquitto/certs/" + current + ".crt",
      "keyfile /mosquitto/certs/" + current + ".key",
      "require_certificate true\n",
      "listener 18443",
      "protocol websockets",
      "cafile /mosquitto/certs/ca.crt",
      "certfile /mosquitto/certs/" + current + ".crt",
      "keyfile /mosquitto/certs/" + current + ".key",
      "require_certificate false\n" ]
  }

  lemma GeneralIsText()
    ensures GeneralBlock() == GeneralText()
  {
    Decimal.ShowSizeLimit();
  }

  lemma ListenerIsText(current: string)
    ensures ListenerBlock(current) == ListenerText(current)
  {
    Decimal.ShowEncryptedPort();
    Decimal.ShowWebsocketPort();
  }

  /** Every preamble line: the general settings, the two listeners and the
      bridge header, in this order. */
  lemma RenderPreamble(current: string, brokers: seq<string>)
    ensures Render(current, brokers)[..9] == GeneralText()
    ensures Render(current, brokers)[9..22] == ListenerText(current)
    ensures Render(current, brokers)[22] == BridgeHeader
  {
    var g := GeneralBlock();
    var l := ListenerBlock(current);
    var r := Render(current, brokers);
    assert r == g + l + [BridgeHeader] + Bridges(current, brokers);
    assert r[..9] == g;
    assert r[9..22] == l;
    GeneralIsText();
    ListenerIsText(current);
  }

  /** The first 23 lines are the same for every broker and every mesh except
      the certificate and key lines of the two listeners. */
  lemma PreambleShared(c: string, d: string, bs: seq<string>, ds: seq<string>, i: int)
    requires 0 <= i < 23
    requires i != 13 && i != 14 && i != 19 && i != 20
    ensures Render(c, bs)[i] == Render(d, ds)[i]
  {
    RenderPreamble(c, bs);
    RenderPreamble(d, ds);
    if i < 9 {
      assert Render(c, bs)[i] == Render(c, bs)[..9][i];
      assert Render(d, ds)[i] == Render(d, ds)[..9][i];
    } else if i < 22 {
      assert Render(c, bs)[i] == Render(c, bs)[9..22][i - 9];
      assert Render(d, ds)[i] == Render(d, ds)[9..22][i - 9];
    }
  }

  /** The bridge listener binds 18883 and the WebSocket listener 18443. */
  lemma PreamblePorts(current: string, brokers: seq<string>)
    ensures Render(current, brokers)[10] == "listener 18883"
    ensures Render(current, brokers)[16] == "listener 18443"
  {
    var h := Preamble(current);
    assert Render(current, brokers)[10] == h[10] && Render(current, brokers)[16] == h[16];
    Decimal.ShowEncryptedPort();
    Decimal.ShowWebsocketPort();
  }

  /** Messages above 13370 bytes are refused. */
  lemma PreambleSizeLimit(current: string, brokers: seq<string>)
    ensures Render(current, brokers)[5] == "message_size_limit 13370"
  {
    assert Render(current, brokers)[5] == Preamble(current)[5];
    Decimal.ShowSizeLimit();
  }

  /** Only the bridge listener demands a client certificate. */
  lemma PreambleClientCertificates(current: string, brokers: seq<string>)
    ensures Render(current, brokers)[15] == "require_certificate true\n"
    ensures Render(current, brokers)[21] == "require_certificate false\n"
  {
    var h := Preamble(current);
    assert Render(current, brokers)[15] == h[15] && Render(current, brokers)[21] == h[21];
  }

  /** Both listeners present `current`'s own certificate and key. */
  lemma PreambleNamed(current: string, brokers: seq<string>)
    ensures Render(current, brokers)[13] == "certfile /mosquitto/certs/" + current + ".crt"
    ensures Render(current, brokers)[19] == "certfile /mosquitto/certs/" + current + ".crt"
    ensures Render(current, brokers)[14] == "keyfile /mosquitto/certs/" + current + ".key"
    ensures Render(current, brokers)[20] == "keyfile /mosquitto/certs/" + current + ".key"
  {
    var h := Preamble(current);
    assert forall k :: 0 <= k < 23 ==> Render(current, brokers)[k] == h[k];
  }
}
