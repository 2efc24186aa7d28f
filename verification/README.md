# mosquitto-swarm configuration generator, in Dafny

This project models the rendering core of `2_config_swarm.py`. That script
writes two files for every broker of a bridged Mosquitto mesh, each broker
being named by its certificate common name:

- `acl.conf`: the same access-control list for every broker;
- `mosquitto.conf`: general settings, then a TLS listener on 18883 for
  bridges that requires a client certificate, then a TLS WebSocket listener
  on 18443 that does not, then one bridge stanza per other broker. When the
  broker is alone, a single comment line replaces the stanzas.

The files go to `./broker_confs/<name>/`. The model takes the broker list as
an input. It returns the files as values: each file is a path plus its
contents, and `mosquitto.conf` is kept as its sequence of lines.

Modules:

- `Decimal`: the f-string rendering of an integer (`f"{n}"`). `Parse` is its
  inverse.
- `Text`: Python's `str.isspace` and `str.strip()`. It also has `Captures`,
  which reads back, in order, the variable part of every line of the form
  prefix + text + suffix. The bridge lemmas use it to say which brokers a
  rendered configuration names.
- `Settings`: the constants and the stripped ACL.
- `Brokers`: the broker list and the peer filter
  `[name for name in broker_names if name != current_broker]`.
- `Paths`: POSIX `os.path.join` and the two per-broker paths.
- `MosquittoConf`: the lines of `mosquitto.conf` (`Render`).
- `RenderProps`: what `Render` guarantees.
- `Generator`: the loop over all brokers.

Where the source cannot run as written, the model takes the meaning the
surrounding code makes evident:

- Line 66 reads `conf_content =` with nothing after it, so the file does not
  parse at all. The appends that follow show that it starts as an empty list.
- Line 40 calls `sorted()` with no argument. Even with line 66 repaired, that
  call raises `TypeError`, which the `except OSError` at line 41 does not
  catch, so the script would stop with a traceback. The evident intent is the
  sorted names of the subdirectories of `./broker_certs`. The model takes the
  broker list as given. Where a lemma needs order or uniqueness, it assumes
  the list is sorted and has no repeats.

Modelled as written:

- `bridge_certfile` and `bridge_keyfile` name the *current* broker's
  certificate and key, not the peer's (lines 112-113). A peer-specific triple
  might have been intended, but the code is followed here.
- The lines from 77, 88 and 97 keep their embedded trailing `"\n"`.
- An empty broker list produces nothing (`NothingToGenerate`), as the early
  return at lines 45-47 does.

## Model

| member | source | states |
|---|---|---|
| Decimal.Show | 2_config_swarm.py:74 | an interpolated integer is a non-empty string of decimal digits, with a leading `0` only for the number zero |
| Decimal.ParseShow | 2_config_swarm.py:74 | reading the rendered digits back gives the number: the rendering loses nothing |
| Text.Strip | 2_config_swarm.py:63 | `strip()` returns a slice `s[i..j]` of the input with only whitespace before `i` and after `j`; the result neither starts nor ends in whitespace, and is empty exactly when the input is all whitespace |
| Text.StripUnique | 2_config_swarm.py:63 | any split of the input into leading whitespace, a core not bounded by whitespace and trailing whitespace gives exactly what `strip()` returns |
| Settings.AclText | 2_config_swarm.py:17-25 | the ACL written to disk is the template without its leading and trailing newline: anonymous read on `pub/#`, anonymous write on `pub/inbox`, full access for user `e` |
| Brokers.Peers | 2_config_swarm.py:101 | the peer list holds exactly the listed brokers other than the current one, and is no longer than the list |
| Brokers.PeersOfOutsider | 2_config_swarm.py:101 | a broker missing from the list has every listed broker as a peer, in order |
| Brokers.PeersRemoveAt | 2_config_swarm.py:101 | in a list without repeats, the peers are the list with the current broker's position removed, so order is kept |
| Brokers.PeersCount | 2_config_swarm.py:101 | in a list without repeats that names the current broker, there are `|brokers| - 1` peers |
| Brokers.PeersDistinct | 2_config_swarm.py:101 | the peers of a list without repeats have no repeats |
| Brokers.PeersSorted | 2_config_swarm.py:101 | the peers of a sorted list are sorted |
| Brokers.SortedIsDistinct | 2_config_swarm.py:40 | a strictly sorted name list has no repeats |
| Paths.PathJoin | 2_config_swarm.py:57 | POSIX `os.path.join`: an absolute part replaces the base; otherwise the result is the base, then a `/` that is added exactly when the base is non-empty and does not already end in `/`, then the part |
| Paths.BrokerDir | 2_config_swarm.py:57 | a one-segment broker name gets the directory `./broker_confs/<name>` |
| Paths.AclPath | 2_config_swarm.py:61 | a one-segment broker name gets its ACL at `./broker_confs/<name>/acl.conf` |
| Paths.ConfPath | 2_config_swarm.py:117 | a one-segment broker name gets its configuration at `./broker_confs/<name>/mosquitto.conf` |
| Paths.PathsDisjoint | 2_config_swarm.py:117 | different one-segment broker names give different path strings, and an ACL path string never equals a configuration path string |
| MosquittoConf.GeneralBlock | 2_config_swarm.py:69-77 | the general settings are nine lines, and the interpolated size limit reads `message_size_limit 13370` |
| MosquittoConf.ListenerBlock | 2_config_swarm.py:81-97 | the listener part is thirteen lines, and the interpolated ports read `listener 18883` for the bridge listener and `listener 18443` for the WebSocket one |
| MosquittoConf.Stanza | 2_config_swarm.py:107-114 | a bridge stanza is eight lines, opened by `connection <peer>` and `address <peer>.mesh:18883` |
| MosquittoConf.Render | 2_config_swarm.py:66-114 | a configuration has 23 + 1 lines when there is no peer, else 23 + 8 × (number of peers) |
| MosquittoConf.Stanzas | 2_config_swarm.py:106-114 | the bridge part has eight lines per peer |
| RenderProps.StanzasAt | 2_config_swarm.py:106-114 | the stanza of the `i`-th peer fills lines `8i` to `8i+7` of the bridge part |
| RenderProps.RenderStanza | 2_config_swarm.py:106-114 | the `i`-th peer's stanza is, in order: `connection P`, `address P.mesh:18883`, `topic # both 2`, `try_private true`, the CA, the current broker's bridge certificate and key, and an empty line |
| RenderProps.LonelyComment | 2_config_swarm.py:103-104 | with no peer, the bridge header is followed only by `# No other brokers to bridge to.`; the comment appears exactly when there is no peer |
| RenderProps.RenderConnections | 2_config_swarm.py:101-108 | reading back the `connection` lines, and the `address … .mesh:18883` lines, gives exactly the peers in list order |
| RenderProps.BridgesExactlyPeers | 2_config_swarm.py:101-108 | `connection q` and `address q.mesh:18883` appear exactly when `q` is another listed broker |
| RenderProps.NoSelfBridge | 2_config_swarm.py:101 | no `connection` or `address` line names the current broker |
| RenderProps.BridgeCount | 2_config_swarm.py:101-107 | in a list without repeats that names the broker, there are `|brokers| - 1` bridges, each to a different broker |
| RenderProps.BridgesInNameOrder | 2_config_swarm.py:101-107 | for a sorted broker list, bridges appear in ascending name order |
| RenderProps.GeneralIsText | 2_config_swarm.py:69-77 | the general settings are, line by line: the header, `persistence true`, `persistence_location /mosquitto/data/`, `allow_anonymous true`, `acl_file /mosquitto/config/acl.conf`, `message_size_limit 13370`, `connection_messages true`, `log_timestamp true`, `tcp_nodelay true` with its embedded newline |
| RenderProps.ListenerIsText | 2_config_swarm.py:81-97 | the listener part is, line by line: the header, then `listener 18883`/`protocol mqtt`, then `listener 18443`/`protocol websockets`; each listener has the mesh CA, `current`'s certificate and key, and `require_certificate` set to `true` for MQTT and `false` for WebSockets |
| RenderProps.RenderPreamble | 2_config_swarm.py:69-100 | every configuration opens with exactly those nine general lines, those thirteen listener lines and the bridge header |
| RenderProps.PreambleShared | 2_config_swarm.py:69-100 | the first 23 lines are the same for every broker and every mesh, except the four listener certificate and key lines |
| RenderProps.PreambleNamed | 2_config_swarm.py:86-95 | both listeners present `<current>.crt` and `<current>.key` |
| RenderProps.PreamblePorts | 2_config_swarm.py:83-91 | the bridge listener binds port 18883 and the WebSocket listener binds 18443 |
| RenderProps.PreambleSizeLimit | 2_config_swarm.py:74 | the message size limit is 13370 |
| RenderProps.PreambleClientCertificates | 2_config_swarm.py:88-97 | `require_certificate` is true on the bridge listener and false on the WebSocket listener |
| Generator.FilesFor | 2_config_swarm.py:57-63 | one iteration writes the stripped ACL policy, to `./broker_confs/<name>/acl.conf`, and the configuration to `./broker_confs/<name>/mosquitto.conf`, for a one-segment name |
| Generator.GenerateConfigs | 2_config_swarm.py:45-119 | an empty list yields nothing; otherwise there is one entry per broker, in list order, holding its two paths, the broker-independent ACL and its rendered configuration; distinct one-segment names give pairwise different path strings |
| Generator.DistinctBrokersDistinctPaths | 2_config_swarm.py:57-61 | for distinct one-segment broker names, all the path strings produced are pairwise different |

## Left out

- The check that `./broker_certs` exists (lines 33-36): this is a filesystem query, and the model starts from a broker list.
- Broker discovery (lines 38-43): line 40 calls `sorted()` with no argument, so there is no selection rule to model. The list is an input.
- Directory creation and file writes (lines 52, 58, 62-63, 118-119): these are side effects. Files are returned as path/content values instead.
- Progress and error printing (lines 31, 34-35, 42, 46, 49, 56, 121-122): console output.
- The final `"\n".join(conf_content)` (line 119): configurations stay as line sequences. The embedded `"\n"` in three lines is kept, but the joined byte layout is not modelled.
- Paths.PathJoin: models POSIX `os.path.join` (`posixpath`) only. On Windows, `os.path.join` uses `\` and drive rules, which are not modelled.
- Paths.PathsDisjoint and Generator.DistinctBrokersDistinctPaths: they compare path strings. A case-insensitive filesystem can still map two distinct names, such as `Alice` and `alice`, to the same files.
- Generator.GenerateConfigs: the `for` loop over the broker list is written as a sequence comprehension. Iterations are independent, so the result is the same.
