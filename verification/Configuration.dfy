/**
 ConfigurationManager and RPCFactory: the server list, the ranks' servers, and the RPC objects, one per port.  The
 files are a parameter: a path leads to the lines of its file.
 */
module Configuration {
  import opened Text
  import opened Decimal
  import Routing

  type Files = map<seq<char>, seq<seq<char>>>

  // ---------- the server list ----------

  /** `find(':')`, or the length when there is none. */
  function FindColon(line: seq<char>): (i: nat)
    ensures i <= |line| && (i < |line| ==> line[i] == ':') && forall j :: 0 <= j < i ==> line[j] != ':'
  {
    if line == [] || line[0] == ':' then 0 else 1 + FindColon(line[1..])
  }

  function Host(line: seq<char>): seq<char> {
    line[..FindColon(line)]
  }

  function HostCount(line: seq<char>): int {
    var i := FindColon(line);
    if i < |line| then Atoi(line[i + 1..]) else 1
  }

  function Repeat<A>(x: A, count: int): (xs: seq<A>)
    ensures |xs| == if count > 0 then count else 0
    ensures forall i :: 0 <= i < |xs| ==> xs[i] == x
    decreases if count > 0 then count else 0
  {
    if count <= 0 then [] else Repeat(x, count - 1) + [x]
  }

  /** The servers that the lines of a server list stand for. */
  function Expand(lines: seq<seq<char>>): seq<seq<char>> {
    if lines == [] then []
    else
      var line := lines[|lines| - 1];
      Expand(lines[..|lines| - 1]) + Repeat(CStr(Host(line)), HostCount(line))
  }

  function SumOfCounts(lines: seq<seq<char>>): nat {
    if lines == [] then 0
    else
      var n := HostCount(lines[|lines| - 1]);
      SumOfCounts(lines[..|lines| - 1]) + if n > 0 then n else 0
  }

  lemma {:induction false} ServersAreCounted(lines: seq<seq<char>>)
    ensures |Expand(lines)| == SumOfCounts(lines)
    decreases |lines|
  {
    if lines != [] { ServersAreCounted(lines[..|lines| - 1]); }
  }

  /** `host:count` */
  function Line(group: (seq<char>, nat)): seq<char> {
    group.0 + ":" + Digits(group.1)
  }

  function Lines(groups: seq<(seq<char>, nat)>): seq<seq<char>> {
    if groups == [] then [] else Lines(groups[..|groups| - 1]) + [Line(groups[|groups| - 1])]
  }

  function Ungroup(groups: seq<(seq<char>, nat)>): seq<seq<char>> {
    if groups == [] then []
    else Ungroup(groups[..|groups| - 1]) + Repeat(groups[|groups| - 1].0, groups[|groups| - 1].1)
  }

  /** Neighbouring equal hosts share a line. */
  function AddHost(groups: seq<(seq<char>, nat)>, h: seq<char>): seq<(seq<char>, nat)> {
    if groups != [] && groups[|groups| - 1].0 == h
    then groups[..|groups| - 1] + [(h, groups[|groups| - 1].1 + 1)]
    else groups + [(h, 1)]
  }

  function Group(hosts: seq<seq<char>>): seq<(seq<char>, nat)> {
    if hosts == [] then [] else AddHost(Group(hosts[..|hosts| - 1]), hosts[|hosts| - 1])
  }

  predicate PlainHost(h: seq<char>) {
    ':' !in h && NUL !in h
  }

  lemma LineParses(group: (seq<char>, nat))
    requires PlainHost(group.0)
    ensures Host(Line(group)) == group.0 && HostCount(Line(group)) == group.1
  {
    var line := Line(group);
    assert line[|group.0|] == ':';
    assert forall j :: 0 <= j < |group.0| ==> line[j] == group.0[j] && group.0[j] in group.0;
    assert FindColon(line) == |group.0|;
    assert line[|group.0| + 1..] == Digits(group.1);
    AtoiOfDigits(group.1);
  }

  /** A line of a server list: a host alone, or with a number of servers behind white space, a sign or none, and
      followed by anything. */
  datatype Entry =
    | Plain(host: seq<char>)
    | Counted(host: seq<char>, space: seq<char>, sign: seq<char>, n: nat, rest: seq<char>)

  function Written(e: Entry): seq<char> {
    match e
    case Plain(host) => host
    case Counted(host, space, sign, n, rest) => host + ":" + (space + (sign + (Digits(n) + rest)))
  }

  predicate Proper(e: Entry) {
    && PlainHost(e.host)
    && (e.Counted? ==>
          && (forall c :: c in e.space ==> c == ' ' || 9 as char <= c <= 13 as char)
          && (e.sign == "" || e.sign == "+" || e.sign == "-")
          && (e.rest == [] || !('0' <= e.rest[0] <= '9')))
  }

  /** How many servers the line stands for. */
  function Servers(e: Entry): nat {
    match e
    case Plain(_) => 1
    case Counted(_, _, sign, n, _) => if sign == "-" then 0 else n
  }

  function AllServers(entries: seq<Entry>): seq<seq<char>> {
    if entries == [] then []
    else
      var e := entries[|entries| - 1];
      AllServers(entries[..|entries| - 1]) + seq(Servers(e), _ => e.host)
  }

  lemma EntryExpands(e: Entry)
    requires Proper(e)
    ensures Host(Written(e)) == e.host
    ensures Repeat(CStr(Host(Written(e))), HostCount(Written(e))) == seq(Servers(e), _ => e.host)
  {
    var line := Written(e);
    NoNulCStr(e.host);
    assert forall j :: 0 <= j < |e.host| ==> line[j] == e.host[j] && e.host[j] in e.host;
    if e.Counted? {
      assert line[|e.host|] == ':';
      assert FindColon(line) == |e.host|;
      assert line[|e.host| + 1..] == e.space + (e.sign + (Digits(e.n) + e.rest));
      AtoiReads(e.space, e.sign, e.n, e.rest);
    } else {
      assert FindColon(line) == |line|;
    }
  }

  /** Loading lines with and without counts gives each host as often as its line says; once, without a count. */
  lemma {:induction false} LoadingEntries(entries: seq<Entry>, lines: seq<seq<char>>)
    requires |lines| == |entries| && forall i :: 0 <= i < |lines| ==>
               Proper(entries[i]) && lines[i] == Written(entries[i])
    ensures Expand(lines) == AllServers(entries)
    decreases |lines|
  {
    if lines != [] {
      var n := |lines| - 1;
      LoadingEntries(entries[..n], lines[..n]);
      EntryExpands(entries[n]);
    }
  }

  /** Hosts written one to a line are the list of servers. */
  lemma {:induction false} LoadingHosts(hosts: seq<seq<char>>)
    requires forall i :: 0 <= i < |hosts| ==> PlainHost(hosts[i])
    ensures Expand(hosts) == hosts
    decreases |hosts|
  {
    if hosts != [] {
      var n := |hosts| - 1;
      LoadingHosts(hosts[..n]);
      EntryExpands(Plain(hosts[n]));
      assert hosts == hosts[..n] + [hosts[n]];
    }
  }

  /** Loading the lines of any grouping gives the servers of the groups. */
  lemma {:induction false} LoadingLinesUngroups(groups: seq<(seq<char>, nat)>)
    requires forall i :: 0 <= i < |groups| ==> PlainHost(groups[i].0)
    ensures Expand(Lines(groups)) == Ungroup(groups)
    decreases |groups|
  {
    if groups != [] {
      var n := |groups| - 1;
      LoadingLinesUngroups(groups[..n]);
      LineParses(groups[n]);
      NoNulCStr(groups[n].0);
      assert Lines(groups)[..|Lines(groups)| - 1] == Lines(groups[..n]);
    }
  }

  lemma UngroupAdd(groups: seq<(seq<char>, nat)>, h: seq<char>)
    ensures Ungroup(AddHost(groups, h)) == Ungroup(groups) + [h]
  {
    var g := AddHost(groups, h);
    if |g| == |groups| {
      assert g[..|g| - 1] == groups[..|groups| - 1];
    } else {
      assert g[..|groups|] == groups;
      assert Repeat(h, 1) == Repeat(h, 0) + [h];
    }
  }

  lemma {:induction false} UngroupGroup(hosts: seq<seq<char>>)
    ensures Ungroup(Group(hosts)) == hosts
    decreases |hosts|
  {
    if hosts != [] {
      var n := |hosts| - 1;
      UngroupGroup(hosts[..n]);
      UngroupAdd(Group(hosts[..n]), hosts[n]);
      assert hosts == hosts[..n] + [hosts[n]];
    }
  }

  lemma {:induction false} GroupPlain(hosts: seq<seq<char>>)
    requires forall i :: 0 <= i < |hosts| ==> PlainHost(hosts[i])
    ensures forall i :: 0 <= i < |Group(hosts)| ==> PlainHost(Group(hosts)[i].0)
    decreases |hosts|
  {
    if hosts != [] {
      GroupPlain(hosts[..|hosts| - 1]);
    }
  }

  /** Writing a list of hosts as host:count lines and loading it gives the list back. */
  lemma LoadingGroupedListGivesItBack(hosts: seq<seq<char>>)
    requires forall i :: 0 <= i < |hosts| ==> PlainHost(hosts[i])
    ensures Expand(Lines(Group(hosts))) == hosts
  {
    UngroupGroup(hosts);
    GroupPlain(hosts);
    LoadingLinesUngroups(Group(hosts));
  }

  // ---------- the servers of the ranks ----------

  newtype uint16 = x: int | 0 <= x < Routing.TWO16

  /** MY_SERVER of a rank: the remainder, as a uint16_t. */
  function MyServer(rank: nat, n: nat): uint16
    requires n >= 1
  {
    assert 0 <= rank % n;
    ((rank % n) % Routing.TWO16) as uint16
  }

  /** How many of the first `commSize` ranks get server `s`. */
  function RanksOf(commSize: nat, n: nat, s: nat): nat
    requires n >= 1
  {
    if commSize == 0 then 0
    else RanksOf(commSize - 1, n, s) + if MyServer(commSize - 1, n) as nat == s then 1 else 0
  }

  lemma NextQuotient(a: nat, n: nat)
    requires n >= 1
    ensures if a % n == n - 1 then (a + 1) / n == a / n + 1 && (a + 1) % n == 0
            else (a + 1) / n == a / n && (a + 1) % n == a % n + 1
  {
    var q, r := a / n, a % n;
    assert a == n * q + r;
    if r == n - 1 {
      assert a + 1 == n * (q + 1);
      QuotientIs(a + 1, n, q + 1, 0);
    } else {
      QuotientIs(a + 1, n, q, r + 1);
    }
  }

  lemma QuotientIs(a: nat, n: nat, q: nat, r: nat)
    requires n >= 1 && a == n * q + r && r < n
    ensures a / n == q && a % n == r
  {
    Routing.ModUnique(a, n, q, r);
    Routing.DivMod(a, n);
    var k := a / n - q;
    assert n * k == 0 by { assert n * k == n * (a / n) - n * q; }
    Routing.MultiplesSpread(n, k);
  }

  /** Up to 65536 servers, `MPI_RANK % NUM_SERVERS` spreads the ranks evenly: each server gets COMM_SIZE /
      NUM_SERVERS of them, the first COMM_SIZE % NUM_SERVERS servers one more. */
  lemma {:induction false} RanksAreSpreadEvenly(commSize: nat, n: nat, s: nat)
    requires s < n <= Routing.TWO16
    ensures RanksOf(commSize, n, s) == commSize / n + if s < commSize % n then 1 else 0
    decreases commSize
  {
    if commSize == 0 {
      QuotientIs(0, n, 0, 0);
    } else {
      RanksAreSpreadEvenly(commSize - 1, n, s);
      NextQuotient(commSize - 1, n);
    }
  }

  /** A uint16_t never names the servers from 65536 on. */
  lemma {:induction false} NoRanksAbove(commSize: nat, n: nat, s: nat)
    requires n >= 1 && s >= Routing.TWO16
    ensures RanksOf(commSize, n, s) == 0
    decreases commSize
  {
    if commSize > 0 { NoRanksAbove(commSize - 1, n, s); }
  }

  /** Each server gets its share of any number of ranks, rounded down or up. */
  ghost predicate SpreadsEvenly(n: nat)
    requires n >= 1
  {
    forall commSize: nat, s: nat :: s < n ==> commSize / n <= RanksOf(commSize, n, s) <= (commSize + n - 1) / n
  }

  /** The ranks are spread evenly exactly up to 65536 servers. */
  lemma SpreadsEvenlyIff(n: nat)
    requires n >= 1
    ensures SpreadsEvenly(n) <==> n <= Routing.TWO16
  {
    if n <= Routing.TWO16 {
      forall commSize: nat, s: nat | s < n
        ensures commSize / n <= RanksOf(commSize, n, s) <= (commSize + n - 1) / n
      {
        RanksAreSpreadEvenly(commSize, n, s);
        RoundedUp(commSize, n);
      }
    } else {
      NoRanksAbove(n, n, Routing.TWO16);
      QuotientIs(n, n, 1, 0);
      assert n / n > RanksOf(n, n, Routing.TWO16);
    }
  }

  lemma RoundedUp(a: nat, n: nat)
    requires n >= 1
    ensures (a + n - 1) / n == a / n + if a % n == 0 then 0 else 1
  {
    var q, r := a / n, a % n;
    assert a == n * q + r;
    if r == 0 {
      QuotientIs(a + n - 1, n, q, n - 1);
    } else {
      assert a + n - 1 == n * (q + 1) + (r - 1);
      QuotientIs(a + n - 1, n, q + 1, r - 1);
    }
  }

  // ---------- the two singletons ----------

  class ConfigurationManager {
    const BACKED_FILE_DIR: seq<char>
    const MEMORY_ALLOCATED: nat
    var RPC_PORT: uint16
    const RPC_THREADS: uint16
    const TCP_CONF: seq<char>
    const VERBS_CONF: seq<char>
    const VERBS_DOMAIN: seq<char>
    const MPI_RANK: nat
    const COMM_SIZE: nat
    var IS_SERVER: bool
    var MY_SERVER: uint16
    var NUM_SERVERS: nat
    var SERVER_ON_NODE: bool
    var SERVER_LIST_PATH: seq<char>
    var SERVER_LIST: seq<seq<char>>
    const DYN_CONFIG: bool

    /** The defaults.  The rank and the number of ranks are MPI's. */
    constructor (rank: nat, commSize: nat)
      ensures MPI_RANK == rank && COMM_SIZE == commSize
      ensures RPC_PORT == 8080 && RPC_THREADS == 1 && NUM_SERVERS == 1 && MY_SERVER == 0
      ensures !IS_SERVER && SERVER_ON_NODE && SERVER_LIST == [] && SERVER_LIST_PATH == "./server_list"
      ensures BACKED_FILE_DIR == "/dev/shm" && MEMORY_ALLOCATED == 1024 * 1024 * 128 && !DYN_CONFIG
      ensures TCP_CONF == "ofi+tcp" && VERBS_CONF == "verbs" && VERBS_DOMAIN == "mlx5_0"
    {
      MPI_RANK, COMM_SIZE := rank, commSize;
      RPC_PORT, RPC_THREADS, NUM_SERVERS, MY_SERVER := 8080, 1, 1, 0;
      IS_SERVER, SERVER_ON_NODE, SERVER_LIST, SERVER_LIST_PATH := false, true, [], "./server_list";
      BACKED_FILE_DIR, MEMORY_ALLOCATED, DYN_CONFIG := "/dev/shm", 1024 * 1024 * 128, false;
      TCP_CONF, VERBS_CONF, VERBS_DOMAIN := "ofi+tcp", "verbs", "mlx5_0";
    }

    /** Reads the list anew.  Without the file the program exits. */
    method LoadServers(files: Files) returns (exited: bool)
      modifies `SERVER_LIST, `NUM_SERVERS
      ensures exited <==> SERVER_LIST_PATH !in files
      ensures exited ==> SERVER_LIST == [] && NUM_SERVERS == old(NUM_SERVERS)
      ensures !exited ==> SERVER_LIST == Expand(files[SERVER_LIST_PATH])
      ensures !exited ==> NUM_SERVERS == |SERVER_LIST| == SumOfCounts(files[SERVER_LIST_PATH])
      ensures !exited && (forall line :: line in files[SERVER_LIST_PATH] ==> PlainHost(line)) ==>
                SERVER_LIST == files[SERVER_LIST_PATH]
    {
      SERVER_LIST := [];
      exited := SERVER_LIST_PATH !in files;
      if exited { return; }
      var lines := files[SERVER_LIST_PATH];
      for l := 0 to |lines|
        invariant SERVER_LIST == Expand(lines[..l])
      {
        var line := lines[l];
        var serverNodeName, count;
        var split := FindColon(line);
        if split != |line| {
          serverNodeName := line[..split];
          count := Atoi(line[split + 1..]);
        } else {
          serverNodeName := line;
          count := 1;
        }
        assert serverNodeName == Host(line) && count == HostCount(line);
        AddServers(serverNodeName, count);
        assert lines[..l + 1][..l] == lines[..l];
      }
      assert lines[..|lines|] == lines;
      ServersAreCounted(lines);
      if forall line :: line in lines ==> PlainHost(line) { LoadingHosts(lines); }
      NUM_SERVERS := |SERVER_LIST|;
    }

    /** The inner loop: one entry per server of the host; none when the count is negative. */
    method AddServers(serverNodeName: seq<char>, count: int)
      modifies `SERVER_LIST
      ensures SERVER_LIST == old(SERVER_LIST) + Repeat(CStr(serverNodeName), count)
    {
      var i := 0;
      while i < count
        invariant 0 <= i && (count >= 0 ==> i <= count) && (count < 0 ==> i == 0)
        invariant SERVER_LIST == old(SERVER_LIST) + Repeat(CStr(serverNodeName), i)
      {
        SERVER_LIST := SERVER_LIST + [CStr(serverNodeName)];
        i := i + 1;
      }
    }

    /** The list of the file is loaded, and this rank has its server. */
    ghost predicate Configured(files: Files)
      reads this
    {
      && SERVER_LIST_PATH in files
      && SERVER_LIST == Expand(files[SERVER_LIST_PATH])
      && NUM_SERVERS == |SERVER_LIST| > 0
      && MY_SERVER == MyServer(MPI_RANK, NUM_SERVERS)
    }

    /** Loads the list of the given file, or of the one set before, and takes this rank's server.  An empty list
        would make the program divide by zero. */
    method ConfigureDefaultClient(files: Files, serverListPath: seq<char>) returns (exited: bool)
      requires var path := if serverListPath != "" then serverListPath else SERVER_LIST_PATH;
               path in files ==> Expand(files[path]) != []
      modifies this
      ensures serverListPath != "" ==> SERVER_LIST_PATH == serverListPath
      ensures serverListPath == "" ==> SERVER_LIST_PATH == old(SERVER_LIST_PATH)
      ensures RPC_PORT == old(RPC_PORT)
      ensures exited <==> SERVER_LIST_PATH !in files
      ensures !exited ==> SERVER_LIST == Expand(files[SERVER_LIST_PATH]) && NUM_SERVERS == |SERVER_LIST| > 0
      ensures !exited ==> MY_SERVER as int == (MPI_RANK % NUM_SERVERS) % 65536
      ensures !exited ==> Configured(files) && !IS_SERVER && !SERVER_ON_NODE
    {
      if serverListPath != "" { SERVER_LIST_PATH := serverListPath; }
      exited := LoadServers(files);
      if exited { return; }
      IS_SERVER := false;
      MY_SERVER := MyServer(MPI_RANK, NUM_SERVERS);
      SERVER_ON_NODE := false;
    }

    method ConfigureDefaultServer(files: Files, serverListPath: seq<char>) returns (exited: bool)
      requires var path := if serverListPath != "" then serverListPath else SERVER_LIST_PATH;
               path in files ==> Expand(files[path]) != []
      modifies this
      ensures serverListPath != "" ==> SERVER_LIST_PATH == serverListPath
      ensures serverListPath == "" ==> SERVER_LIST_PATH == old(SERVER_LIST_PATH)
      ensures RPC_PORT == old(RPC_PORT)
      ensures exited <==> SERVER_LIST_PATH !in files
      ensures !exited ==> SERVER_LIST == Expand(files[SERVER_LIST_PATH]) && NUM_SERVERS == |SERVER_LIST| > 0
      ensures !exited ==> MY_SERVER as int == (MPI_RANK % NUM_SERVERS) % 65536
      ensures !exited ==> Configured(files) && IS_SERVER && SERVER_ON_NODE
    {
      if serverListPath != "" { SERVER_LIST_PATH := serverListPath; }
      exited := LoadServers(files);
      if exited { return; }
      IS_SERVER := true;
      MY_SERVER := MyServer(MPI_RANK, NUM_SERVERS);
      SERVER_ON_NODE := true;
    }
  }

  class RPC {
    const server_port: uint16
    var server_list: seq<seq<char>>
    var exited: bool    // without the server list the program exits here

    /** Takes its port from RPC_PORT, and loads the server list again. */
    constructor (conf: ConfigurationManager, files: Files)
      modifies conf`SERVER_LIST, conf`NUM_SERVERS
      ensures server_port == conf.RPC_PORT && server_list == conf.SERVER_LIST
      ensures exited <==> conf.SERVER_LIST_PATH !in files
      ensures exited ==> conf.NUM_SERVERS == old(conf.NUM_SERVERS)
      ensures !exited ==>
                conf.SERVER_LIST == Expand(files[conf.SERVER_LIST_PATH]) && conf.NUM_SERVERS == |conf.SERVER_LIST|
    {
      server_port, server_list := conf.RPC_PORT, [];
      new;
      exited := conf.LoadServers(files);
      server_list := conf.SERVER_LIST;
    }
  }

  class RPCFactory {
    var rpcs: map<uint16, RPC>

    constructor ()
      ensures rpcs == map[]
    {
      rpcs := map[];
    }

    /** One RPC per port, made for that port. */
    ghost predicate Valid()
      reads this
    {
      forall port :: port in rpcs ==> rpcs[port].server_port == port
    }

    /** The RPC of a port, made at the first request: its constructor reads RPC_PORT, which is swapped meanwhile. */
    method GetRPC(conf: ConfigurationManager, files: Files, port: uint16) returns (exited: bool, rpc: RPC?)
      requires Valid()
      modifies this, conf`RPC_PORT, conf`SERVER_LIST, conf`NUM_SERVERS
      ensures Valid()
      ensures exited <==> port !in old(rpcs) && conf.SERVER_LIST_PATH !in files
      ensures !exited ==> rpc != null && rpc.server_port == port && rpcs == old(rpcs)[port := rpc]
      ensures !exited ==> conf.RPC_PORT == old(conf.RPC_PORT)
      ensures port in old(rpcs) ==>
                rpcs == old(rpcs) && conf.SERVER_LIST == old(conf.SERVER_LIST) &&
                  conf.NUM_SERVERS == old(conf.NUM_SERVERS)
      ensures port !in old(rpcs) && !exited ==>
                conf.SERVER_LIST == Expand(files[conf.SERVER_LIST_PATH]) && conf.NUM_SERVERS == |conf.SERVER_LIST|
    {
      if port in rpcs { return false, rpcs[port]; }
      var temp := conf.RPC_PORT;
      conf.RPC_PORT := port;
      rpc := new RPC(conf, files);
      exited := rpc.exited;
      if exited { return; }
      rpcs := rpcs[port := rpc];
      conf.RPC_PORT := temp;
    }
  }

  /** What a container's constructor copies from the configuration. */
  datatype Captured = Captured(numServers: nat, myServer: uint16, isServer: bool, onNode: bool)

  /** The constructor of every container: it copies the configuration, then asks for the RPC of RPC_PORT. */
  method ConstructContainer(conf: ConfigurationManager, factory: RPCFactory, files: Files)
    returns (exited: bool, c: Captured)
    requires factory.Valid()
    modifies factory, conf`RPC_PORT, conf`SERVER_LIST, conf`NUM_SERVERS
    ensures factory.Valid()
    ensures exited <==> old(conf.RPC_PORT !in factory.rpcs) && conf.SERVER_LIST_PATH !in files
    ensures c == old(Captured(conf.NUM_SERVERS, conf.MY_SERVER, conf.IS_SERVER, conf.SERVER_ON_NODE))
    ensures !exited ==> conf.RPC_PORT == old(conf.RPC_PORT) && conf.RPC_PORT in factory.rpcs
    ensures !exited ==> old(factory.rpcs.Keys) <= factory.rpcs.Keys
                        && forall p :: p in old(factory.rpcs) ==> factory.rpcs[p] == old(factory.rpcs)[p]
    ensures !exited ==>
              if old(conf.RPC_PORT in factory.rpcs)
              then conf.NUM_SERVERS == old(conf.NUM_SERVERS) && conf.SERVER_LIST == old(conf.SERVER_LIST)
              else conf.SERVER_LIST == Expand(files[conf.SERVER_LIST_PATH]) && conf.NUM_SERVERS == |conf.SERVER_LIST|
  {
    c := Captured(conf.NUM_SERVERS, conf.MY_SERVER, conf.IS_SERVER, conf.SERVER_ON_NODE);
    var rpc;
    exited, rpc := factory.GetRPC(conf, files, conf.RPC_PORT);
  }

  datatype Action = AskForRPC(port: uint16) | MakeContainer

  ghost predicate Kept(before: map<uint16, RPC>, after: map<uint16, RPC>) {
    forall p :: p in before ==> p in after && after[p] == before[p]
  }

  method RunAction(conf: ConfigurationManager, factory: RPCFactory, files: Files, action: Action)
    returns (made: seq<Captured>)
    requires factory.Valid() && conf.Configured(files)
    modifies factory, conf`RPC_PORT, conf`SERVER_LIST, conf`NUM_SERVERS
    ensures factory.Valid() && conf.Configured(files) && conf.RPC_PORT == old(conf.RPC_PORT) &&
            Kept(old(factory.rpcs), factory.rpcs)
    ensures action.AskForRPC? ==> action.port in factory.rpcs && made == []
    ensures action.MakeContainer? ==>
              made == [Captured(|Expand(files[conf.SERVER_LIST_PATH])|, conf.MY_SERVER, conf.IS_SERVER,
                                conf.SERVER_ON_NODE)]
  {
    made := [];
    match action
    case AskForRPC(port) =>
      var exited, rpc := factory.GetRPC(conf, files, port);
    case MakeContainer =>
      var exited, c := ConstructContainer(conf, factory, files);
      made := [c];
  }

  /** The first `a` actions have got their RPCs. */
  ghost predicate Asked(actions: seq<Action>, a: nat, rpcs: map<uint16, RPC>) {
    forall i :: 0 <= i < a && i < |actions| && actions[i].AskForRPC? ==> actions[i].port in rpcs
  }

  lemma KeptAsked(actions: seq<Action>, a: nat, first: map<uint16, RPC>, before: map<uint16, RPC>,
                  after: map<uint16, RPC>)
    requires a < |actions| && Asked(actions, a, before) && Kept(first, before) && Kept(before, after)
    requires actions[a].AskForRPC? ==> actions[a].port in after
    ensures Asked(actions, a + 1, after) && Kept(first, after)
  {
  }

  lemma CountNext(actions: seq<Action>, a: nat)
    requires a < |actions|
    ensures multiset(actions[..a + 1])[MakeContainer] ==
            multiset(actions[..a])[MakeContainer] + if actions[a].MakeContainer? then 1 else 0
  {
    assert actions[..a + 1] == actions[..a] + [actions[a]];
  }

  lemma RankInRange(rank: nat, n: nat)
    requires n > 0
    ensures MyServer(rank, n) as nat < n
  {
    assert 0 <= rank % n < n;
  }

  /** After ConfigureDefaultClient or ConfigureDefaultServer, whatever RPCs and containers a program makes:
      RPC_PORT stays, every port keeps its RPC, and all containers agree on num_servers, with my_server in range. */
  method RunProgram(conf: ConfigurationManager, factory: RPCFactory, files: Files, actions: seq<Action>)
    returns (made: seq<Captured>)
    requires factory.Valid() && conf.Configured(files)
    modifies factory, conf`RPC_PORT, conf`SERVER_LIST, conf`NUM_SERVERS
    ensures factory.Valid() && conf.Configured(files) && conf.RPC_PORT == old(conf.RPC_PORT) &&
            Kept(old(factory.rpcs), factory.rpcs)
    ensures Asked(actions, |actions|, factory.rpcs)
    ensures |made| == multiset(actions)[MakeContainer]
    ensures forall i :: 0 <= i < |made| ==>
              made[i].numServers == |Expand(files[conf.SERVER_LIST_PATH])| &&
                made[i].myServer as int < made[i].numServers
  {
    made := [];
    ghost var n := |Expand(files[conf.SERVER_LIST_PATH])|;
    RankInRange(conf.MPI_RANK, n);
    var a := 0;
    while a < |actions|
      invariant 0 <= a <= |actions|
      invariant factory.Valid() && conf.Configured(files) && conf.RPC_PORT == old(conf.RPC_PORT)
      invariant Kept(old(factory.rpcs), factory.rpcs)
      invariant Asked(actions, a, factory.rpcs)
      invariant |made| == multiset(actions[..a])[MakeContainer]
      invariant forall i :: 0 <= i < |made| ==> made[i].numServers == n && made[i].myServer == conf.MY_SERVER
    {
      ghost var before := factory.rpcs;
      var more := RunAction(conf, factory, files, actions[a]);
      KeptAsked(actions, a, old(factory.rpcs), before, factory.rpcs);
      CountNext(actions, a);
      made := made + more;
      a := a + 1;
    }
    assert actions[..|actions|] == actions;
  }

  /** Without a prior load (NUM_SERVERS set by hand, or left at its default), the first container's RPC loads the
      list behind its back: two containers agree on num_servers exactly when NUM_SERVERS was the length of the
      list. */
  method TwoContainers(conf: ConfigurationManager, files: Files)
    returns (exited: bool, first: Captured, second: Captured)
    modifies conf`RPC_PORT, conf`SERVER_LIST, conf`NUM_SERVERS
    ensures exited <==> conf.SERVER_LIST_PATH !in files
    ensures first.numServers == old(conf.NUM_SERVERS)
    ensures !exited ==> second.numServers == |Expand(files[conf.SERVER_LIST_PATH])|
    ensures !exited ==>
      (first.numServers == second.numServers <==> old(conf.NUM_SERVERS) == |Expand(files[conf.SERVER_LIST_PATH])|)
  {
    var factory := new RPCFactory();
    exited, first := ConstructContainer(conf, factory, files);
    second := first;
    if exited { return; }
    exited, second := ConstructContainer(conf, factory, files);
  }

  /** A default configuration next to a list of two servers: the first container sees one server, the second one two. */
  method DefaultContainersDisagree(rank: nat, commSize: nat) returns (first: Captured, second: Captured)
    ensures first.numServers == 1 && second.numServers == 2
  {
    var conf := new ConfigurationManager(rank, commSize);
    var hosts := ["a", "b"];
    var files: Files := map["./server_list" := Lines(Group(hosts))];
    LoadingGroupedListGivesItBack(hosts);
    var exited;
    exited, first, second := TwoContainers(conf, files);
  }
}
