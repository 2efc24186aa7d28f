/**
 The generator's fixed configuration: output directory, the two listener
 ports, the message size ceiling and the access-control list every broker
 receives.
 */
module Settings {
  import Text

  /** Root under which each broker's configuration directory is created. */
  const BrokerConfsDir: string := "./broker_confs"

  /** Port of the TLS listener brokers bridge to each other over. */
  const EncryptedPort: nat := 18883

  /** Port of the TLS WebSocket listener clients connect to. */
  const WebsocketPort: nat := 18443

  /** Largest message, in bytes, a broker accepts. */
  const MessageSizeLimit: nat := 13370

  /** The ACL as written to disk: anonymous clients read `pub/#` and write
      `pub/inbox`; user `e` reads and writes everything. */
  const AclPolicy: string :=
    "# Default access for anonymous users\n"
    + "topic read pub/#\n"
    + "topic write pub/inbox\n"
    + "\n"
    + "# Special access for user 'e'\n"
    + "user e\n"
    + "topic readwrite #"

  /** The ACL template as declared: the policy between a leading and a
      trailing newline. */
  const AclContent: string := "\n" + AclPolicy + "\n"

  /** `ACL_CONTENT.strip()`: the template without its leading and trailing
      newline, every inner line kept. */
  function AclText(): (r: string)
    ensures r == AclPolicy
    ensures r == AclContent[1..|AclContent| - 1]
  {
    var s := AclContent;
    assert AclPolicy[0] == '#' && AclPolicy[|AclPolicy| - 1] == '#';
    assert s[1] == AclPolicy[0] && s[|s| - 2] == AclPolicy[|AclPolicy| - 1];
    assert s[1..|s| - 1] == AclPolicy;
    assert s[0] == '\n' && s[1] == '#' && s[|s| - 2] == '#' && s[|s| - 1] == '\n';
    assert Text.AllSpace(s[..1]) by { assert s[..1][0] == s[0]; }
    assert Text.AllSpace(s[|s| - 1..]) by { assert s[|s| - 1..][0] == s[|s| - 1]; }
    Text.StripUnique(s, 1, |s| - 1);
    Text.Strip(s)
  }
}
