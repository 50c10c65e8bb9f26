/** The dynamic inventory generator: resolve the host list from the
    `WAZUH_HOSTS` value (or a fixed default) and map its first three hosts,
    by position, to the three Wazuh groups. */
module AutoGenerator {
  import opened Wrappers
  import opened CommaSplit

  /** One inventory group, the `{'hosts': [...]}` object. */
  datatype Group = Group(hosts: seq<string>)

  /** The inventory: the groups `wazuh_server`, `wazuh_indexer` and
      `wazuh_dashboard`, in that order. */
  datatype Inventory = Inventory(wazuhServer: Group, wazuhIndexer: Group, wazuhDashboard: Group)

  /** The static fallback host list. */
  const DefaultHosts: seq<string> := ["server1", "indexer1", "dashboard1"]

  /** Python truthiness of an optional string: neither `None` nor `""`. */
  function Truthy(env: Option<string>): (b: bool)
    ensures !b <==> env == None || env == Some("")
  {
    env.Some? && env.value != ""
  }

  /** `get_hosts()`, with the environment read made a parameter: the comma
      split of a truthy value, otherwise the default list. */
  function GetHosts(env: Option<string>): (r: seq<string>)
    ensures |r| >= 1
    ensures Truthy(env) ==> WellFormedFields(r)
  {
    if Truthy(env) then SplitComma(env.value) else DefaultHosts
  }

  /** Python's `hosts[i]` for a non-negative literal index: `None` stands
      for the `IndexError` it raises past the end. */
  function At(hosts: seq<string>, i: nat): (r: Option<string>)
    ensures r.Some? <==> i < |hosts|
    ensures r.Some? ==> r.value == hosts[i]
  {
    if i < |hosts| then Some(hosts[i]) else None
  }

  /** Each group holds exactly one host, as every built inventory does. */
  predicate Valid(inv: Inventory) {
    |inv.wazuhServer.hosts| == 1 && |inv.wazuhIndexer.hosts| == 1 && |inv.wazuhDashboard.hosts| == 1
  }

  /** The dictionary literal of `main()` under its `try`: positions 0, 1 and
      2 of the host list go to server, indexer and dashboard, and an index
      out of range is the failure the `except` catches. */
  function Build(hosts: seq<string>): (r: Result<Inventory>)
    ensures r.Success? <==> |hosts| >= 3
    ensures r.Success? ==> Valid(r.value)
    ensures r.Success? ==> r.value.wazuhServer.hosts == [hosts[0]]
    ensures r.Success? ==> r.value.wazuhIndexer.hosts == [hosts[1]]
    ensures r.Success? ==> r.value.wazuhDashboard.hosts == [hosts[2]]
  {
    var server := At(hosts, 0);
    var indexer := At(hosts, 1);
    var dashboard := At(hosts, 2);
    if server.Some? && indexer.Some? && dashboard.Some? then
      Success(Inventory(Group([server.value]), Group([indexer.value]), Group([dashboard.value])))
    else
      Failure
  }

  /** The hosts of a valid inventory, in group order. */
  function HostsOf(inv: Inventory): seq<string>
    requires Valid(inv)
  {
    [inv.wazuhServer.hosts[0], inv.wazuhIndexer.hosts[0], inv.wazuhDashboard.hosts[0]]
  }

  /** `main()` without its output: the inventory it would print, or the
      failure it would report. */
  function Generate(env: Option<string>): (r: Result<Inventory>)
    ensures r.Success? <==> |GetHosts(env)| >= 3
    ensures r.Success? ==> Valid(r.value)
    ensures r.Success? ==> HostsOf(r.value) == GetHosts(env)[..3]
  {
    Build(GetHosts(env))
  }

  /** An unset or empty `WAZUH_HOSTS` gives exactly the default host list. */
  lemma GetHostsFallback(env: Option<string>)
    requires env.None? || env == Some("")
    ensures GetHosts(env) == ["server1", "indexer1", "dashboard1"]
  {
  }

  /** A non-empty `WAZUH_HOSTS` is split losslessly: the hosts joined with ","
      are the value itself, there is one more host than commas, and no host
      contains a comma. */
  lemma GetHostsFromValue(s: string)
    requires s != ""
    ensures JoinComma(GetHosts(Some(s))) == s
    ensures |GetHosts(Some(s))| == CountComma(s) + 1
    ensures forall i :: 0 <= i < |GetHosts(Some(s))| ==> ',' !in GetHosts(Some(s))[i]
  {
    JoinSplitComma(s);
    SplitCommaCount(s);
  }

  /** Only the first three hosts matter: lists that agree on them build the
      same inventory. */
  lemma BuildIgnoresExtraHosts(h1: seq<string>, h2: seq<string>)
    requires |h1| >= 3 && |h2| >= 3 && h1[..3] == h2[..3]
    ensures Build(h1) == Build(h2)
  {
  }

  /** Building from the hosts of a valid inventory gives that inventory back. */
  lemma BuildHostsOf(inv: Inventory)
    requires Valid(inv)
    ensures Build(HostsOf(inv)) == Success(inv)
  {
    assert inv.wazuhServer.hosts == [inv.wazuhServer.hosts[0]];
    assert inv.wazuhIndexer.hosts == [inv.wazuhIndexer.hosts[0]];
    assert inv.wazuhDashboard.hosts == [inv.wazuhDashboard.hosts[0]];
  }

  /** A successful build holds exactly the first three hosts, in order. */
  lemma HostsOfBuild(hosts: seq<string>)
    requires |hosts| >= 3
    ensures Build(hosts).Success? && HostsOf(Build(hosts).value) == hosts[..3]
  {
  }

  /** The default host list always builds, to server1/indexer1/dashboard1. */
  lemma GenerateDefault(env: Option<string>)
    requires env.None? || env == Some("")
    ensures Generate(env) == Success(Inventory(Group(["server1"]), Group(["indexer1"]), Group(["dashboard1"])))
  {
  }

  /** A non-empty value builds exactly when it has at least two commas; with
      fewer (in particular with none) the generator fails. */
  lemma GenerateSucceedsIff(s: string)
    requires s != ""
    ensures Generate(Some(s)).Success? <==> CountComma(s) >= 2
  {
    SplitCommaCount(s);
  }

  /** On success from a non-empty value, the three hosts are its first three
      comma-separated fields: comma-free, and `server,indexer,dashboard` is a
      prefix of the value that ends at its end or at a comma. */
  lemma GenerateFields(s: string)
    requires s != "" && Generate(Some(s)).Success?
    ensures var inv := Generate(Some(s)).value;
      var a, b, c := inv.wazuhServer.hosts[0], inv.wazuhIndexer.hosts[0], inv.wazuhDashboard.hosts[0];
      var p := a + "," + b + "," + c;
      ',' !in a && ',' !in b && ',' !in c &&
      p <= s && (|p| == |s| || s[|p|] == ',')
  {
    var hosts := SplitComma(s);
    JoinSplitComma(s);
    FirstThreeFields(hosts);
  }

  /** The join of three or more fields starts with the first three joined,
      followed by nothing or by a comma. */
  lemma FirstThreeFields(hosts: seq<string>)
    requires |hosts| >= 3
    ensures var p := hosts[0] + "," + hosts[1] + "," + hosts[2];
      p <= JoinComma(hosts) && (|p| == |JoinComma(hosts)| || JoinComma(hosts)[|p|] == ',')
  {
    var a, b, c := hosts[0], hosts[1], hosts[2];
    var p := a + "," + b + "," + c;
    var tail := JoinComma(hosts[2..]);
    assert hosts[1..][0] == b && hosts[1..][1..] == hosts[2..];
    assert JoinComma(hosts) == a + "," + (b + "," + tail);
    if |hosts| == 3 {
      assert tail == c;
    } else {
      assert hosts[2..][0] == c && hosts[2..][1..] == hosts[3..];
      var q := "," + JoinComma(hosts[3..]);
      assert tail == c + q;
      assert JoinComma(hosts) == p + q;
    }
  }

  /** `WAZUH_HOSTS=a,b,c` puts a, b and c in the three groups. */
  lemma GenerateExampleThreeHosts()
    ensures Generate(Some("a,b,c")) == Success(Inventory(Group(["a"]), Group(["b"]), Group(["c"])))
  {
    SplitCommaField("a", "b,c");
    SplitCommaField("b", "c");
    SplitCommaNoComma("c");
    assert "a" + "," + "b,c" == "a,b,c";
    assert "b" + "," + "c" == "b,c";
  }

  /** `WAZUH_HOSTS=onlyone` fails. */
  lemma GenerateExampleOneHost()
    ensures Generate(Some("onlyone")).Failure?
  {
  }
}
