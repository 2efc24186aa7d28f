/**
 Where each broker's two files go: `<confs>/<name>/acl.conf` and
 `<confs>/<name>/mosquitto.conf`, built with POSIX `os.path.join`.
 */
module Paths {
  import Settings
  import Text

  /** POSIX `os.path.join(base, part)`: an absolute `part` replaces `base`;
      otherwise a `/` is inserted unless `base` is empty or already ends in one. */
  function PathJoin(base: string, part: string): (r: string)
    ensures |part| > 0 && part[0] == '/' ==> r == part
    ensures (|part| == 0 || part[0] != '/') ==>
      && |base| + |part| <= |r| <= |base| + |part| + 1
      && r[..|base|] == base
      && r[|r| - |part|..] == part
      && (base != [] ==> r[|r| - |part| - 1] == '/')
    ensures (|part| == 0 || part[0] != '/') ==>
      (|r| == |base| + |part| <==> base == [] || base[|base| - 1] == '/')
  {
    if |part| > 0 && part[0] == '/' then part
    else if base == [] || base[|base| - 1] == '/' then base + part
    else base + "/" + part
  }

  /** A broker name usable as one path segment: non-empty, no `/`. */
  predicate IsSegment(name: string) {
    && |name| > 0
    && forall k :: 0 <= k < |name| ==> name[k] != '/'
  }

  /** `<confs>/<name>`: for a one-segment name, the confs directory, a `/`
      and the name. */
  function BrokerDir(name: string): (d: string)
    ensures IsSegment(name) ==> d == "./broker_confs/" + name
  {
    PathJoin(Settings.BrokerConfsDir, name)
  }

  /** Where a broker's ACL is written. */
  function AclPath(name: string): (p: string)
    ensures IsSegment(name) ==> p == "./broker_confs/" + name + "/acl.conf"
  {
    var dir := BrokerDir(name);
    assert IsSegment(name) ==> dir[|dir| - 1] == name[|name| - 1];
    PathJoin(dir, "acl.conf")
  }

  /** Where a broker's daemon configuration is written. */
  function ConfPath(name: string): (p: string)
    ensures IsSegment(name) ==> p == "./broker_confs/" + name + "/mosquitto.conf"
  {
    var dir := BrokerDir(name);
    assert IsSegment(name) ==> dir[|dir| - 1] == name[|name| - 1];
    PathJoin(dir, "mosquitto.conf")
  }

  /** Two different broker names give different path strings, and an ACL
      path string never equals a daemon configuration path string. */
  lemma PathsDisjoint(a: string, b: string)
    requires IsSegment(a) && IsSegment(b)
    ensures a != b ==> AclPath(a) != AclPath(b)
    ensures a != b ==> ConfPath(a) != ConfPath(b)
    ensures AclPath(a) != ConfPath(b)
  {
    var pre := "./broker_confs/";
    Text.FramedBuild(pre, "/acl.conf", a);
    Text.FramedBuild(pre, "/acl.conf", b);
    Text.FramedBuild(pre, "/mosquitto.conf", a);
    Text.FramedBuild(pre, "/mosquitto.conf", b);
    SuffixesDiffer(pre + a, pre + b);
  }

  lemma SuffixesDiffer(x: string, y: string)
    ensures x + "/acl.conf" != y + "/mosquitto.conf"
  {
    var u := x + "/acl.conf";
    var v := y + "/mosquitto.conf";
    // the sixth character from the end tells them apart
    assert u[|u| - 6] == 'l';
    assert v[|v| - 6] == 'o';
  }
}
