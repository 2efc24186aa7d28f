/**
 The text of one broker's `mosquitto.conf`, as a sequence of lines: general
 settings, a TLS listener for bridges, a TLS WebSocket listener for clients,
 and one bridge stanza per other broker in the mesh.
 */
module MosquittoConf {
  import Decimal
  import Settings
  import Brokers
  import Text

  const GeneralHeader: string := "# --- General Settings ---"
  const ListenersHeader: string := "# --- Listeners ---"
  const BridgeHeader: string := "# --- Bridge Connections ---"
  const NoPeersComment: string := "# No other brokers to bridge to."

  /** Prefix of the line that opens a bridge stanza. */
  const ConnectionPrefix: string := "connection "

  /** Frame of the line giving a bridge's remote address. */
  const AddressPrefix: string := "address "
  const AddressSuffix: string := ".mesh:" + Decimal.Show(Settings.EncryptedPort)

  /** The address suffix names the encrypted bridge port. */
  lemma AddressSuffixText()
    ensures AddressSuffix == ".mesh:18883"
  {
    Decimal.ShowEncryptedPort();
  }

  function ConnectionLine(peer: string): string {
    ConnectionPrefix + peer
  }

  function AddressLine(peer: string): string {
    AddressPrefix + peer + AddressSuffix
  }

  /** Persistence, anonymous access under the ACL, size limit and logging. */
  function GeneralBlock(): (r: seq<string>)
    ensures |r| == 9
    ensures r[5] == "message_size_limit 13370"
  {
    Decimal.ShowSizeLimit();
    [ GeneralHeader,
      "persistence true",
      "persistence_location /mosquitto/data/",
      "allow_anonymous true",
      "acl_file /mosquitto/config/acl.conf",
      "message_size_limit " + Decimal.Show(Settings.MessageSizeLimit),
      "connection_messages true",
      "log_timestamp true",
      "tcp_nodelay true\n" ]
  }

  /** The two listeners, both presenting `current`'s certificate; only the
      bridge listener demands a client certificate. */
  function ListenerBlock(current: string): (r: seq<string>)
    ensures |r| == 13
    ensures r[1] == "listener 18883"
    ensures r[7] == "listener 18443"
  {
    Decimal.ShowEncryptedPort();
    Decimal.ShowWebsocketPort();
    [ ListenersHeader,
      "listener " + Decimal.Show(Settings.EncryptedPort),
      "protocol mqtt",
      "cafile /mosquitto/certs/ca.crt",
      "certfile /mosquitto/certs/" + current + ".crt",
      "keyfile /mosquitto/certs/" + current + ".key",
      "require_certificate true\n",
      "listener " + Decimal.Show(Settings.WebsocketPort),
      "protocol websockets",
      "cafile /mosquitto/certs/ca.crt",
      "certfile /mosquitto/certs/" + current + ".crt",
      "keyfile /mosquitto/certs/" + current + ".key",
      "require_certificate false\n" ]
  }

  /** Everything before the bridge stanzas. */
  function Preamble(current: string): seq<string> {
    GeneralBlock() + ListenerBlock(current) + [BridgeHeader]
  }

  /** The bridge from `current` to `peer`. The client certificate presented
      on the bridge is `current`'s own. */
  function Stanza(current: string, peer: string): (r: seq<string>)
    ensures |r| == 8
    ensures r[0] == "connection " + peer
    ensures r[1] == "address " + peer + ".mesh:18883"
  {
    AddressSuffixText();
    [ ConnectionLine(peer),
      AddressLine(peer),
      "topic # both 2",
      "try_private true",
      "bridge_cafile /mosquitto/certs/ca.crt",
      "bridge_certfile /mosquitto/certs/" + current + ".crt",
      "bridge_keyfile /mosquitto/certs/" + current + ".key",
      "" ]
  }

  /** One stanza per peer, in the peers' order. */
  function Stanzas(current: string, peers: seq<string>): (r: seq<string>)
    ensures |r| == 8 * |peers|
    decreases |peers|
  {
    if peers == [] then [] else Stanza(current, peers[0]) + Stanzas(current, peers[1..])
  }

  /** The bridge stanzas, or the explanatory comment when there is no peer. */
  function Bridges(current: string, brokers: seq<string>): seq<string> {
    var peers := Brokers.Peers(current, brokers);
    if peers == [] then [NoPeersComment] else Stanzas(current, peers)
  }

  /** The lines of `current`'s `mosquitto.conf`, given every broker's name. */
  function Render(current: string, brokers: seq<string>): (r: seq<string>)
    ensures Brokers.Peers(current, brokers) == [] ==> |r| == 23 + 1
    ensures Brokers.Peers(current, brokers) != [] ==> |r| == 23 + 8 * |Brokers.Peers(current, brokers)|
  {
    Preamble(current) + Bridges(current, brokers)
  }
}
