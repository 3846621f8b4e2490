/**
 * Where this proxy runs: its network, pod name and namespace, with the
 * defaults used when the environment leaves them unset, and the subject and
 * key names derived from them.
 */
module PodInfos {

  datatype PodInfo = PodInfo(network: string, podName: string, podNamespace: string)

  /** An empty setting falls back to `default`. */
  function OrDefault(value: string, default: string): (r: string)
    ensures value != [] ==> r == value
    ensures value == [] ==> r == default
  {
    if value == [] then default else value
  }

  /**
   * `ParsePodInfo`, given the values of the three environment variables (an
   * unset variable reads as the empty string).
   */
  function ParsePodInfo(networkEnv: string, podNameEnv: string, namespaceEnv: string): (p: PodInfo)
    ensures p.network != [] && p.podName != [] && p.podNamespace != []
    ensures p.network == (if networkEnv == [] then "default" else networkEnv)
    ensures p.podName == (if podNameEnv == [] then "proxy-0" else podNameEnv)
    ensures p.podNamespace == (if namespaceEnv == [] then "default" else namespaceEnv)
  {
    PodInfo(OrDefault(networkEnv, "default"), OrDefault(podNameEnv, "proxy-0"), OrDefault(namespaceEnv, "default"))
  }

  /** Parsing is idempotent: feeding a parsed record back in changes nothing. */
  lemma {:induction false} ParsePodInfoIdempotent(networkEnv: string, podNameEnv: string, namespaceEnv: string)
    ensures var p := ParsePodInfo(networkEnv, podNameEnv, namespaceEnv);
      ParsePodInfo(p.network, p.podName, p.podNamespace) == p
  {
  }

  /** The messaging subject of the network: `csmc.<namespace>.<network>`. */
  function RPCNetworkSubject(p: PodInfo): (s: string)
    ensures |s| == 6 + |p.podNamespace| + |p.network|
    ensures s[..5] == "csmc." && s[5..5 + |p.podNamespace|] == p.podNamespace
    ensures s[5 + |p.podNamespace|] == '.' && s[6 + |p.podNamespace|..] == p.network
  {
    var s := "csmc." + p.podNamespace + "." + p.network;
    assert s[..5] == "csmc.";
    assert s[5..5 + |p.podNamespace|] == p.podNamespace;
    assert s[6 + |p.podNamespace|..] == p.network;
    s
  }

  /** The key-value prefix of the network: `csmc_<namespace>_<network>`. */
  function KVNetworkKey(p: PodInfo): (s: string)
    ensures |s| == 6 + |p.podNamespace| + |p.network|
    ensures s[..5] == "csmc_" && s[5..5 + |p.podNamespace|] == p.podNamespace
    ensures s[5 + |p.podNamespace|] == '_' && s[6 + |p.podNamespace|..] == p.network
  {
    var s := "csmc_" + p.podNamespace + "_" + p.network;
    assert s[..5] == "csmc_";
    assert s[5..5 + |p.podNamespace|] == p.podNamespace;
    assert s[6 + |p.podNamespace|..] == p.network;
    s
  }

  /** The bucket of game modes: the network key followed by `_gamemodes`. */
  function KVGamemodesKey(p: PodInfo): (s: string)
    ensures |s| == |KVNetworkKey(p)| + 10
    ensures s[..|KVNetworkKey(p)|] == KVNetworkKey(p) && s[|KVNetworkKey(p)|..] == "_gamemodes"
  {
    var s := KVNetworkKey(p) + "_gamemodes";
    assert s[..|KVNetworkKey(p)|] == KVNetworkKey(p);
    s
  }

  /** The bucket of instances: the network key followed by `_instances`. */
  function KVInstancesKey(p: PodInfo): (s: string)
    ensures |s| == |KVNetworkKey(p)| + 10
    ensures s[..|KVNetworkKey(p)|] == KVNetworkKey(p) && s[|KVNetworkKey(p)|..] == "_instances"
  {
    var s := KVNetworkKey(p) + "_instances";
    assert s[..|KVNetworkKey(p)|] == KVNetworkKey(p);
    s
  }

  /** The two buckets of one network never share a name. */
  lemma {:induction false} BucketKeysDistinct(p: PodInfo)
    ensures KVGamemodesKey(p) != KVInstancesKey(p)
  {
    var n := |KVNetworkKey(p)|;
    assert KVGamemodesKey(p)[n + 1] == 'g';
    assert KVInstancesKey(p)[n + 1] == 'i';
  }

  /** The subject and the key-value prefix differ only in their separators. */
  lemma {:induction false} SubjectAndKeyDiffer(p: PodInfo)
    ensures RPCNetworkSubject(p) != KVNetworkKey(p)
  {
    assert RPCNetworkSubject(p)[4] == '.';
    assert KVNetworkKey(p)[4] == '_';
  }
}
