/**
 The per-broker generation loop: for every broker in the list, the ACL and
 the daemon configuration together with the paths they are written to.
 Writing is left to the caller; the files are returned as values.
 */
module Generator {
  import Settings
  import Paths
  import Brokers
  import MosquittoConf

  /** The two files produced for one broker. `conf` holds the lines of
      `mosquitto.conf` before they are joined with newlines. */
  datatype BrokerFiles = BrokerFiles(aclPath: string, acl: string, confPath: string, conf: seq<string>)

  /** An empty broker list produces nothing; otherwise one entry per broker. */
  datatype Outcome = NothingToGenerate | Generated(files: seq<BrokerFiles>)

  /** What one iteration of the loop produces for broker `name`: its two paths, the ACL
      (the same for every broker) and its configuration lines. */
  function FilesFor(name: string, brokers: seq<string>): (f: BrokerFiles)
    ensures f.acl == Settings.AclPolicy
    ensures Paths.IsSegment(name) ==>
      && f.aclPath == "./broker_confs/" + name + "/acl.conf"
      && f.confPath == "./broker_confs/" + name + "/mosquitto.conf"
  {
    BrokerFiles(Paths.AclPath(name), Settings.AclText(), Paths.ConfPath(name), MosquittoConf.Render(name, brokers))
  }

  /** No two files share a path. */
  ghost predicate PathsUnique(files: seq<BrokerFiles>) {
    forall i, j :: 0 <= i < |files| && 0 <= j < |files| ==>
      && files[i].aclPath != files[j].confPath
      && (i != j ==> files[i].aclPath != files[j].aclPath && files[i].confPath != files[j].confPath)
  }

  /** The whole run over a given broker list: nothing for an empty list,
      otherwise each broker's files in list order (the loop over the list
      becomes a sequence comprehension). */
  function GenerateConfigs(brokers: seq<string>): (out: Outcome)
    ensures out.NothingToGenerate? <==> brokers == []
    ensures out.Generated? ==> |out.files| == |brokers|
    ensures out.Generated? ==> forall k :: 0 <= k < |brokers| ==>
      && out.files[k].aclPath == Paths.AclPath(brokers[k])
      && out.files[k].acl == Settings.AclPolicy
      && out.files[k].confPath == Paths.ConfPath(brokers[k])
      && out.files[k].conf == MosquittoConf.Render(brokers[k], brokers)
    ensures out.Generated? && Brokers.Distinct(brokers)
      && (forall k :: 0 <= k < |brokers| ==> Paths.IsSegment(brokers[k]))
      ==> PathsUnique(out.files)
  {
    if brokers == [] then NothingToGenerate
    else
      var files := seq(|brokers|, k requires 0 <= k < |brokers| => FilesFor(brokers[k], brokers));
      DistinctBrokersDistinctPaths(brokers, files);
      Generated(files)
  }

  /** Distinct one-segment broker names give pairwise different path strings
      (as strings: a case-insensitive filesystem may still identify two). */
  lemma DistinctBrokersDistinctPaths(brokers: seq<string>, files: seq<BrokerFiles>)
    requires |files| == |brokers|
    requires forall k :: 0 <= k < |brokers| ==>
      files[k].aclPath == Paths.AclPath(brokers[k]) && files[k].confPath == Paths.ConfPath(brokers[k])
    ensures Brokers.Distinct(brokers) && (forall k :: 0 <= k < |brokers| ==> Paths.IsSegment(brokers[k]))
      ==> PathsUnique(files)
  {
    if Brokers.Distinct(brokers) && forall k :: 0 <= k < |brokers| ==> Paths.IsSegment(brokers[k]) {
      forall a, b | 0 <= a < |files| && 0 <= b < |files|
        ensures files[a].aclPath != files[b].confPath
        ensures a != b ==> files[a].aclPath != files[b].aclPath && files[a].confPath != files[b].confPath
      {
        Paths.PathsDisjoint(brokers[a], brokers[b]);
      }
    }
  }
}
