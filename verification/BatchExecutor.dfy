/** internal/batch/executor.go: one command on many sites, in order or in parallel by host. */
module BatchExecutor {
  import opened SortedStrings

  /** A site, by its registry alias and resolved host. */
  datatype Site = Site(alias: string, canonicalHost: string)

  datatype Status = StatusOK | StatusFailed | StatusSkipped

  datatype SiteResult = SiteResult(site: Site, status: Status, detail: string)

  /** What the command returns for a site. */
  datatype Outcome = Detail(text: string) | Error(message: string)

  function HostKey(s: Site): string {
    if s.canonicalHost == "" then s.alias else s.canonicalHost
  }

  function ResultOf(s: Site, o: Outcome): SiteResult {
    match o
    case Detail(text) => SiteResult(s, StatusOK, text)
    case Error(message) => SiteResult(s, StatusFailed, message)
  }

  function Skipped(s: Site): SiteResult {
    SiteResult(s, StatusSkipped, "context cancelled")
  }

  /** The sites of one host, in input order. */
  function OfHost(sites: seq<Site>, host: string): seq<Site> {
    if sites == [] then []
    else
      var rest := OfHost(sites[..|sites| - 1], host);
      var last := sites[|sites| - 1];
      if HostKey(last) == host then rest + [last] else rest
  }

  lemma {:induction false} OfHostIsThatHost(sites: seq<Site>, host: string)
    ensures forall i :: 0 <= i < |OfHost(sites, host)| ==> HostKey(OfHost(sites, host)[i]) == host
  {
    if sites != [] {
      OfHostIsThatHost(sites[..|sites| - 1], host);
    }
  }

  lemma {:induction false} OfHostCounts(sites: seq<Site>, s: Site)
    ensures multiset(OfHost(sites, HostKey(s)))[s] == multiset(sites)[s]
  {
    if sites != [] {
      var front, last := sites[..|sites| - 1], sites[|sites| - 1];
      OfHostCounts(front, s);
      assert sites == front + [last];
      if HostKey(last) == HostKey(s) {
        assert OfHost(sites, HostKey(s)) == OfHost(front, HostKey(s)) + [last];
      }
    }
  }

  /** A site's commands run on the host it was resolved to, or on its alias when it has none. */
  predicate RunsOn(s: Site, host: string) {
    (s.canonicalHost == host && host != "") || (s.canonicalHost == "" && s.alias == host)
  }

  /** The group of a host holds exactly the sites that run on it, and so each site is in one group. */
  lemma {:induction false} GroupHolds(sites: seq<Site>, host: string, s: Site)
    ensures s in OfHost(sites, host) <==> s in sites && RunsOn(s, host)
  {
    if sites != [] {
      var front, last := sites[..|sites| - 1], sites[|sites| - 1];
      GroupHolds(front, host, s);
      assert sites == front + [last];
    }
  }

  /** Lists that agree host by host hold the same sites. */
  lemma SameByHost(a: seq<Site>, b: seq<Site>)
    requires forall h: string :: OfHost(a, h) == OfHost(b, h)
    ensures multiset(a) == multiset(b)
  {
    forall s: Site ensures multiset(a)[s] == multiset(b)[s] {
      OfHostCounts(a, s);
      OfHostCounts(b, s);
    }
  }

  method GroupByCanonicalHost(sites: seq<Site>) returns (groups: map<string, seq<Site>>)
    ensures forall h: string :: h in groups <==> OfHost(sites, h) != []
    ensures forall h :: h in groups ==> groups[h] == OfHost(sites, h)
  {
    groups := map[];
    for i := 0 to |sites|
      invariant forall h: string :: h in groups <==> OfHost(sites[..i], h) != []
      invariant forall h :: h in groups ==> groups[h] == OfHost(sites[..i], h)
    {
      var s := sites[i];
      var host := s.canonicalHost;
      if host == "" {
        host := s.alias;
      }
      assert sites[..i + 1][..i] == sites[..i];
      groups := groups[host := (if host in groups then groups[host] else []) + [s]];
    }
    assert sites[..|sites|] == sites;
  }

  /** Runs the command on one site at a time. `fn` gives the outcome of the i-th site's command and
      `cancelled` tells whether the context was cancelled before it. */
  method ExecuteSequential(sites: seq<Site>, fn: (nat, Site) -> Outcome, cancelled: nat -> bool) returns (results: seq<SiteResult>)
    ensures |results| == |sites|
    ensures forall i :: 0 <= i < |sites| ==>
              results[i] == if cancelled(i) then Skipped(sites[i]) else ResultOf(sites[i], fn(i, sites[i]))
  {
    var slots := new SiteResult[|sites|](i requires 0 <= i < |sites| => Skipped(sites[i]));
    for i := 0 to |sites|
      invariant forall k :: 0 <= k < i ==>
        slots[k] == if cancelled(k) then Skipped(sites[k]) else ResultOf(sites[k], fn(k, sites[k]))
    {
      if cancelled(i) {
        slots[i] := Skipped(sites[i]);
        continue;
      }
      var outcome := fn(i, sites[i]);
      match outcome {
        case Error(message) => slots[i] := SiteResult(sites[i], StatusFailed, message);
        case Detail(text) => slots[i] := SiteResult(sites[i], StatusOK, text);
      }
    }
    results := slots[..];
  }

  // ----------------------------------------------------------- parallel

  datatype Phase = WantSlot | Between | Calling | Done

  /** The goroutine of one host: its sites, and how many have a result. */
  datatype Group = Group(host: string, sites: seq<Site>, pos: nat, phase: Phase)

  datatype Batch = Batch(groups: seq<Group>, results: seq<SiteResult>, slots: nat, cancelled: bool)

  /** The steps of the goroutines and of the context. A check of the context and the call or the
      append that follows it are one step: nothing between them is shared. */
  datatype Event =
    | TakeSlot(g: nat)
    | Begin(g: nat)
    | Finish(g: nat, outcome: Outcome)
    | Skip(g: nat)
    | Leave(g: nat)
    | CancelContext

  predicate In(b: Batch, g: nat, phase: Phase) {
    g < |b.groups| && b.groups[g].phase == phase
  }

  predicate HasNext(g: Group) {
    g.pos < |g.sites|
  }

  predicate Enabled(b: Batch, e: Event, concurrency: nat) {
    match e
    case TakeSlot(g) => In(b, g, WantSlot) && b.slots < concurrency
    case Begin(g) => In(b, g, Between) && HasNext(b.groups[g]) && !b.cancelled
    case Finish(g, _) => In(b, g, Calling) && HasNext(b.groups[g])
    case Skip(g) => In(b, g, Between) && HasNext(b.groups[g]) && b.cancelled
    case Leave(g) => In(b, g, Between) && !HasNext(b.groups[g])
    case CancelContext => true
  }

  function Moved(b: Batch, g: nat, phase: Phase): Batch
    requires g < |b.groups|
  {
    b.(groups := b.groups[g := b.groups[g].(phase := phase)])
  }

  function Recorded(b: Batch, g: nat, r: SiteResult): Batch
    requires g < |b.groups|
  {
    b.(groups := b.groups[g := b.groups[g].(pos := b.groups[g].pos + 1, phase := Between)], results := b.results + [r])
  }

  function Apply(b: Batch, e: Event, concurrency: nat): Batch
    requires Enabled(b, e, concurrency)
  {
    match e
    case TakeSlot(g) => Moved(b, g, Between).(slots := b.slots + 1)
    case Begin(g) => Moved(b, g, Calling)
    case Finish(g, o) => Recorded(b, g, ResultOf(b.groups[g].sites[b.groups[g].pos], o))
    case Skip(g) => Recorded(b, g, Skipped(b.groups[g].sites[b.groups[g].pos]))
    case Leave(g) => Moved(b, g, Done).(slots := if b.slots > 0 then b.slots - 1 else 0)
    case CancelContext => b.(cancelled := true)
  }

  function SitesOf(results: seq<SiteResult>): seq<Site> {
    seq(|results|, i requires 0 <= i < |results| => results[i].site)
  }

  /** The groups the batch starts with: one for each host of the sites. */
  predicate Partition(groups: seq<Group>, sites: seq<Site>) {
    && (forall g :: 0 <= g < |groups| ==> groups[g].sites == OfHost(sites, groups[g].host))
    && (forall g, h :: 0 <= g < h < |groups| ==> groups[g].host != groups[h].host)
  }

  predicate Holds(p: Phase) {
    p.Between? || p.Calling?
  }

  function Holders(groups: seq<Group>): nat {
    if groups == [] then 0 else Holders(groups[..|groups| - 1]) + if Holds(groups[|groups| - 1].phase) then 1 else 0
  }

  predicate GroupOk(b: Batch, g: nat)
    requires g < |b.groups|
  {
    var x := b.groups[g];
    && x.pos <= |x.sites| && (x.phase.WantSlot? ==> x.pos == 0) && (x.phase.Done? ==> x.pos == |x.sites|)
    && (x.phase.Calling? ==> x.pos < |x.sites|)
    && OfHost(SitesOf(b.results), x.host) == x.sites[..x.pos]
  }

  /** What every step keeps: each group's results are its first sites in order, and the occupied
      slots are the groups that hold one. */
  ghost predicate Inv(b: Batch, sites: seq<Site>, concurrency: nat) {
    && Partition(b.groups, sites)
    && (forall g :: 0 <= g < |b.groups| ==> GroupOk(b, g))
    && (forall h: string :: OfHost(SitesOf(b.results), h) != [] ==> exists g :: 0 <= g < |b.groups| && b.groups[g].host == h)
    && b.slots == Holders(b.groups) <= concurrency
  }

  lemma {:induction false} HoldersChange(groups: seq<Group>, g: nat, x: Group)
    requires g < |groups|
    ensures Holders(groups[g := x]) + (if Holds(groups[g].phase) then 1 else 0) ==
            Holders(groups) + if Holds(x.phase) then 1 else 0
    decreases |groups|
  {
    var n := |groups| - 1;
    if g == n {
      assert groups[g := x][..n] == groups[..n];
    } else {
      assert groups[g := x][..n] == groups[..n][g := x];
      HoldersChange(groups[..n], g, x);
    }
  }

  lemma ResultAppends(results: seq<SiteResult>, r: SiteResult, h: string)
    ensures OfHost(SitesOf(results + [r]), h) ==
            OfHost(SitesOf(results), h) + if HostKey(r.site) == h then [r.site] else []
  {
    var s := SitesOf(results + [r]);
    assert s[..|s| - 1] == SitesOf(results);
  }

  lemma GroupsOwnHost(b: Batch, sites: seq<Site>, g: nat)
    requires Partition(b.groups, sites) && g < |b.groups|
    ensures forall i :: 0 <= i < |b.groups[g].sites| ==> HostKey(b.groups[g].sites[i]) == b.groups[g].host
  {
    OfHostIsThatHost(sites, b.groups[g].host);
  }

  /** A step that only moves a group to another phase. */
  lemma MovedKeepsGroups(b: Batch, g: nat, phase: Phase, u: nat)
    requires g < |b.groups| && u < |b.groups| && GroupOk(b, u)
    requires !phase.WantSlot? && (phase.Done? ==> b.groups[g].pos == |b.groups[g].sites|)
    requires phase.Calling? ==> b.groups[g].pos < |b.groups[g].sites|
    ensures GroupOk(Moved(b, g, phase), u)
  {
    hide OfHost, SitesOf;
  }

  /** A recorded result is the next one of its own group and of no other. */
  lemma RecordedKeepsGroups(b: Batch, g: nat, r: SiteResult, u: nat)
    requires g < |b.groups| && u < |b.groups| && GroupOk(b, g) && GroupOk(b, u) && HasNext(b.groups[g])
    requires r.site == b.groups[g].sites[b.groups[g].pos] && HostKey(r.site) == b.groups[g].host
    requires u != g ==> b.groups[u].host != b.groups[g].host
    ensures GroupOk(Recorded(b, g, r), u)
  {
    hide OfHost, SitesOf;
    ResultAppends(b.results, r, b.groups[u].host);
    var x := b.groups[g];
    assert x.sites[..x.pos + 1] == x.sites[..x.pos] + [x.sites[x.pos]];
  }

  lemma StepKeepsGroups(b: Batch, e: Event, sites: seq<Site>, concurrency: nat, u: nat)
    requires Inv(b, sites, concurrency) && Enabled(b, e, concurrency) && u < |b.groups|
    ensures u < |Apply(b, e, concurrency).groups| && GroupOk(Apply(b, e, concurrency), u)
  {
    hide OfHost, SitesOf, Holders, Partition;
    assert GroupOk(b, u) && (!e.CancelContext? ==> GroupOk(b, e.g));
    match e
    case TakeSlot(g) => MovedKeepsGroups(b, g, Between, u);
    case Begin(g) => MovedKeepsGroups(b, g, Calling, u);
    case Finish(g, o) =>
      GroupsOwnHost(b, sites, g);
      HostsDiffer(b, sites, g, u);
      RecordedKeepsGroups(b, g, ResultOf(b.groups[g].sites[b.groups[g].pos], o), u);
    case Skip(g) =>
      GroupsOwnHost(b, sites, g);
      HostsDiffer(b, sites, g, u);
      RecordedKeepsGroups(b, g, Skipped(b.groups[g].sites[b.groups[g].pos]), u);
    case Leave(g) => MovedKeepsGroups(b, g, Done, u);
    case CancelContext =>
  }

  lemma HostsDiffer(b: Batch, sites: seq<Site>, g: nat, u: nat)
    requires Partition(b.groups, sites) && g < |b.groups| && u < |b.groups|
    ensures g != u ==> b.groups[g].host != b.groups[u].host
  {
  }

  lemma StepKeepsPartition(b: Batch, e: Event, sites: seq<Site>, concurrency: nat)
    requires Partition(b.groups, sites) && Enabled(b, e, concurrency)
    ensures Partition(Apply(b, e, concurrency).groups, sites)
    ensures |Apply(b, e, concurrency).groups| == |b.groups|
    ensures forall g :: 0 <= g < |b.groups| ==> Apply(b, e, concurrency).groups[g].host == b.groups[g].host
  {
    hide OfHost;
  }

  /** A host with results has a group. */
  lemma StepKeepsHosts(b: Batch, e: Event, sites: seq<Site>, concurrency: nat, h: string)
    requires Inv(b, sites, concurrency) && Enabled(b, e, concurrency)
    requires OfHost(SitesOf(Apply(b, e, concurrency).results), h) != []
    ensures exists g :: 0 <= g < |b.groups| && b.groups[g].host == h
  {
    hide OfHost, SitesOf, Holders, Partition, GroupOk;
    if e.Finish? || e.Skip? {
      GroupsOwnHost(b, sites, e.g);
      var site := b.groups[e.g].sites[b.groups[e.g].pos];
      var r := if e.Finish? then ResultOf(site, e.outcome) else Skipped(site);
      ResultAppends(b.results, r, h);
      if HostKey(site) == h {
        assert b.groups[e.g].host == h;
      }
    }
  }

  lemma StepKeepsSlots(b: Batch, e: Event, concurrency: nat)
    requires b.slots == Holders(b.groups) <= concurrency && Enabled(b, e, concurrency)
    ensures Apply(b, e, concurrency).slots == Holders(Apply(b, e, concurrency).groups) <= concurrency
  {
    hide Holders;
    var z := Apply(b, e, concurrency);
    if !e.CancelContext? {
      HoldersChange(b.groups, e.g, z.groups[e.g]);
    }
  }

  lemma StepKeepsInv(b: Batch, e: Event, sites: seq<Site>, concurrency: nat)
    requires Inv(b, sites, concurrency) && Enabled(b, e, concurrency)
    ensures Inv(Apply(b, e, concurrency), sites, concurrency)
  {
    hide Enabled, Apply, OfHost, SitesOf, Holders, GroupOk, Partition;
    var z := Apply(b, e, concurrency);
    StepKeepsPartition(b, e, sites, concurrency);
    StepKeepsSlots(b, e, concurrency);
    forall u | 0 <= u < |z.groups| ensures GroupOk(z, u) {
      StepKeepsGroups(b, e, sites, concurrency, u);
    }
    forall h: string | OfHost(SitesOf(z.results), h) != []
      ensures exists g :: 0 <= g < |z.groups| && z.groups[g].host == h
    {
      StepKeepsHosts(b, e, sites, concurrency, h);
      var g :| 0 <= g < |b.groups| && b.groups[g].host == h;
      assert z.groups[g].host == h;
    }
  }

  /** The batch before any goroutine ran. */
  predicate Fresh(b: Batch, sites: seq<Site>) {
    && Partition(b.groups, sites) && b.results == [] && b.slots == 0
    && (forall g :: 0 <= g < |b.groups| ==> b.groups[g].pos == 0 && b.groups[g].phase.WantSlot?)
    && (forall i :: 0 <= i < |sites| ==> exists g :: 0 <= g < |b.groups| && b.groups[g].host == HostKey(sites[i]))
  }

  ghost predicate NamesOnce(hosts: seq<string>, names: set<string>) {
    (forall i, j :: 0 <= i < j < |hosts| ==> hosts[i] != hosts[j]) && forall h :: h in names <==> h in hosts
  }

  /** The hosts of the groups, sorted. */
  method HostNames(names: set<string>) returns (hosts: seq<string>)
    ensures NamesOnce(hosts, names) && IsSorted(hosts)
  {
    var left := names;
    hosts := [];
    while left != {}
      invariant left <= names && NamesOnce(hosts, names - left)
      decreases |left|
    {
      var h :| h in left;
      left := left - {h};
      hosts := hosts + [h];
    }
    SortingKeepsDistinct(hosts);
    hosts := Sort(hosts);
  }

  function GroupsOf(hosts: seq<string>, byHost: map<string, seq<Site>>): seq<Group>
    requires forall h :: h in hosts ==> h in byHost
  {
    seq(|hosts|, i requires 0 <= i < |hosts| => Group(hosts[i], byHost[hosts[i]], 0, WantSlot))
  }

  /** One goroutine for each host, in the order of the hosts' names. */
  method StartParallel(sites: seq<Site>) returns (b: Batch)
    ensures Fresh(b, sites)
  {
    hide OfHost, Fresh;
    var byHost := GroupByCanonicalHost(sites);
    var hosts := HostNames(byHost.Keys);
    b := Batch(GroupsOf(hosts, byHost), [], 0, false);
    StartsFresh(sites, byHost, hosts);
  }

  lemma StartsFresh(sites: seq<Site>, byHost: map<string, seq<Site>>, hosts: seq<string>)
    requires NamesOnce(hosts, byHost.Keys)
    requires forall h: string :: h in byHost <==> OfHost(sites, h) != []
    requires forall h :: h in byHost ==> byHost[h] == OfHost(sites, h)
    ensures (forall h :: h in hosts ==> h in byHost) && Fresh(Batch(GroupsOf(hosts, byHost), [], 0, false), sites)
  {
    hide OfHost;
    var b := Batch(GroupsOf(hosts, byHost), [], 0, false);
    forall i | 0 <= i < |sites| ensures exists g :: 0 <= g < |b.groups| && b.groups[g].host == HostKey(sites[i]) {
      OfHostFinds(sites, i);
      var g :| 0 <= g < |hosts| && hosts[g] == HostKey(sites[i]);
      assert b.groups[g].host == HostKey(sites[i]);
    }
  }

  lemma {:induction false} OfHostFinds(sites: seq<Site>, i: nat)
    requires i < |sites|
    ensures OfHost(sites, HostKey(sites[i])) != []
  {
    if i < |sites| - 1 {
      OfHostFinds(sites[..|sites| - 1], i);
    }
  }

  lemma SortingKeepsDistinct(q: seq<string>)
    requires forall i, j :: 0 <= i < j < |q| ==> q[i] != q[j]
    ensures var r := Sorted(q);
            (forall i, j :: 0 <= i < j < |r| ==> r[i] != r[j]) && forall x :: x in r <==> x in q
  {
    var r := Sorted(q);
    forall x ensures x in r <==> x in q {
      assert x in multiset(r) <==> x in multiset(q);
    }
    forall i, j | 0 <= i < j < |r| ensures r[i] != r[j] {
      if r[i] == r[j] {
        TwiceInMultiset(r, i, j);
        OnceInMultiset(q, r[i]);
      }
    }
  }

  lemma TwiceInMultiset(q: seq<string>, i: nat, j: nat)
    requires i < j < |q| && q[i] == q[j]
    ensures multiset(q)[q[i]] >= 2
  {
    assert q == q[..i] + [q[i]] + q[i + 1..j] + [q[j]] + q[j + 1..];
  }

  lemma {:induction false} OnceInMultiset(q: seq<string>, x: string)
    requires forall i, j :: 0 <= i < j < |q| ==> q[i] != q[j]
    ensures multiset(q)[x] <= 1
  {
    if q != [] {
      var n := |q| - 1;
      assert q == q[..n] + [q[n]];
      OnceInMultiset(q[..n], x);
      if q[n] == x {
        assert x !in q[..n];
      }
    }
  }

  lemma {:induction false} NoHolders(groups: seq<Group>)
    requires forall g :: 0 <= g < |groups| ==> groups[g].phase.WantSlot?
    ensures Holders(groups) == 0
  {
    if groups != [] {
      NoHolders(groups[..|groups| - 1]);
    }
  }

  ghost predicate Run(states: seq<Batch>, events: seq<Event>, sites: seq<Site>, concurrency: nat) {
    && |states| == |events| + 1 && Fresh(states[0], sites)
    && forall i :: 0 <= i < |events| ==>
         Enabled(states[i], events[i], concurrency) && states[i + 1] == Apply(states[i], events[i], concurrency)
  }

  lemma {:induction false} RunKeepsInv(states: seq<Batch>, events: seq<Event>, sites: seq<Site>, concurrency: nat, n: nat)
    requires Run(states, events, sites, concurrency) && n < |states|
    ensures Inv(states[n], sites, concurrency)
    ensures |states[n].groups| == |states[0].groups|
    ensures forall g :: 0 <= g < |states[n].groups| ==> states[n].groups[g].host == states[0].groups[g].host
    decreases n
  {
    hide Enabled, Apply, Partition;
    if n == 0 {
      NoHolders(states[0].groups);
      assert SitesOf([]) == [];
    } else {
      RunKeepsInv(states, events, sites, concurrency, n - 1);
      StepKeepsPartition(states[n - 1], events[n - 1], sites, concurrency);
      StepKeepsInv(states[n - 1], events[n - 1], sites, concurrency);
    }
  }

  predicate IsRunning(b: Batch, g: nat) {
    In(b, g, Calling) && HasNext(b.groups[g])
  }

  lemma {:induction false} RunningIsHeld(groups: seq<Group>, running: set<nat>)
    requires forall g :: g in running ==> g < |groups| && groups[g].phase.Calling?
    ensures |running| <= Holders(groups)
    decreases |groups|
  {
    if groups == [] {
      assert running == {};
    } else {
      var n := |groups| - 1;
      RunningIsHeld(groups[..n], running - {n});
      if n in running {
        assert running == (running - {n}) + {n};
      } else {
        assert running - {n} == running;
      }
    }
  }

  /** Main result on concurrency: in every state of every run at most Concurrency groups run. */
  lemma ConcurrencyHolds(states: seq<Batch>, events: seq<Event>, sites: seq<Site>, concurrency: nat, n: nat)
    requires Run(states, events, sites, concurrency) && n < |states|
    ensures |set x: nat | x < |states[n].groups| && states[n].groups[x].phase.Calling?| <= concurrency
  {
    RunKeepsInv(states, events, sites, concurrency, n);
    hide Run;
    RunningIsHeld(states[n].groups, set x: nat | x < |states[n].groups| && states[n].groups[x].phase.Calling?);
  }

  /** Main result on exclusion: in every run no two sites of one host run at once. */
  lemma HostsRunOneAtATime(states: seq<Batch>, events: seq<Event>, sites: seq<Site>, concurrency: nat, n: nat, g: nat, h: nat)
    requires Run(states, events, sites, concurrency) && n < |states|
    requires IsRunning(states[n], g) && IsRunning(states[n], h) && g != h
    ensures var b := states[n];
            HostKey(b.groups[g].sites[b.groups[g].pos]) != HostKey(b.groups[h].sites[b.groups[h].pos])
  {
    RunKeepsInv(states, events, sites, concurrency, n);
    hide Run;
    var b := states[n];
    GroupsOwnHost(b, sites, g);
    GroupsOwnHost(b, sites, h);
    HostsDiffer(b, sites, g, h);
  }

  predicate AllDone(b: Batch) {
    forall g :: 0 <= g < |b.groups| ==> b.groups[g].phase.Done?
  }

  lemma {:induction false} OfHostMembers(sites: seq<Site>, h: string)
    ensures OfHost(sites, h) != [] ==> exists i :: 0 <= i < |sites| && HostKey(sites[i]) == h
  {
    if sites != [] {
      var n := |sites| - 1;
      OfHostMembers(sites[..n], h);
      if HostKey(sites[n]) == h {
      } else if OfHost(sites[..n], h) != [] {
        var i :| 0 <= i < n && HostKey(sites[..n][i]) == h;
        assert HostKey(sites[i]) == h;
      }
    }
  }

  /** Main result on results: when every goroutine is done there is exactly one result for each input
      site, and those of one host are in input order. */
  lemma BatchIsComplete(states: seq<Batch>, events: seq<Event>, sites: seq<Site>, concurrency: nat, n: nat)
    requires Run(states, events, sites, concurrency) && n < |states| && AllDone(states[n])
    ensures multiset(SitesOf(states[n].results)) == multiset(sites)
    ensures forall h: string :: OfHost(SitesOf(states[n].results), h) == OfHost(sites, h)
  {
    RunKeepsInv(states, events, sites, concurrency, n);
    var b := states[n];
    assert Fresh(states[0], sites);
    hide Run, SitesOf, Holders, Fresh;
    forall h: string ensures OfHost(SitesOf(b.results), h) == OfHost(sites, h) {
      if g :| 0 <= g < |b.groups| && b.groups[g].host == h {
        assert GroupOk(b, g);
        assert b.groups[g].sites[..b.groups[g].pos] == b.groups[g].sites;
      } else {
        OfHostMembers(sites, h);
        EveryHostHasAGroup(states[0], b, sites, h);
      }
    }
    SameByHost(SitesOf(b.results), sites);
  }

  lemma EveryHostHasAGroup(first: Batch, b: Batch, sites: seq<Site>, h: string)
    requires Fresh(first, sites) && |b.groups| == |first.groups|
    requires forall g :: 0 <= g < |b.groups| ==> b.groups[g].host == first.groups[g].host
    requires forall g :: 0 <= g < |b.groups| ==> b.groups[g].host != h
    ensures forall i :: 0 <= i < |sites| ==> HostKey(sites[i]) != h
  {
    forall i | 0 <= i < |sites| ensures HostKey(sites[i]) != h {
      var g :| 0 <= g < |first.groups| && first.groups[g].host == HostKey(sites[i]);
      assert b.groups[g].host == first.groups[g].host;
    }
  }

  // -------------------------------------------------------- termination

  function StepsLeft(g: Group): nat
    requires g.pos <= |g.sites|
  {
    var left := |g.sites| - g.pos;
    match g.phase
    case WantSlot => 2 * left + 2
    case Between => 2 * left + 1
    case Calling => 2 * left
    case Done => 0
  }

  function TotalLeft(groups: seq<Group>): nat
    requires forall g :: 0 <= g < |groups| ==> groups[g].pos <= |groups[g].sites|
  {
    if groups == [] then 0 else TotalLeft(groups[..|groups| - 1]) + StepsLeft(groups[|groups| - 1])
  }

  lemma {:induction false} TotalChanges(groups: seq<Group>, g: nat, x: Group)
    requires forall k :: 0 <= k < |groups| ==> groups[k].pos <= |groups[k].sites|
    requires g < |groups| && x.pos <= |x.sites|
    ensures TotalLeft(groups[g := x]) + StepsLeft(groups[g]) == TotalLeft(groups) + StepsLeft(x)
    decreases |groups|
  {
    var n := |groups| - 1;
    if g == n {
      assert groups[g := x][..n] == groups[..n];
    } else {
      assert groups[g := x][..n] == groups[..n][g := x];
      TotalChanges(groups[..n], g, x);
    }
  }

  lemma PositionsFit(b: Batch, sites: seq<Site>, concurrency: nat)
    requires Inv(b, sites, concurrency)
    ensures forall g :: 0 <= g < |b.groups| ==> b.groups[g].pos <= |b.groups[g].sites|
  {
    forall g | 0 <= g < |b.groups| ensures b.groups[g].pos <= |b.groups[g].sites| {
      assert GroupOk(b, g);
    }
  }

  /** A step other than a cancellation leaves fewer steps. */
  lemma StepsRunOut(b: Batch, e: Event, sites: seq<Site>, concurrency: nat)
    requires Inv(b, sites, concurrency) && Enabled(b, e, concurrency) && !e.CancelContext?
    ensures forall g :: 0 <= g < |b.groups| ==> b.groups[g].pos <= |b.groups[g].sites|
    ensures forall g :: 0 <= g < |Apply(b, e, concurrency).groups| ==>
              Apply(b, e, concurrency).groups[g].pos <= |Apply(b, e, concurrency).groups[g].sites|
    ensures TotalLeft(Apply(b, e, concurrency).groups) < TotalLeft(b.groups)
  {
    PositionsFit(b, sites, concurrency);
    StepKeepsInv(b, e, sites, concurrency);
    PositionsFit(Apply(b, e, concurrency), sites, concurrency);
    assert GroupOk(b, e.g);
    hide Inv, TotalLeft, GroupOk;
    TotalChanges(b.groups, e.g, Apply(b, e, concurrency).groups[e.g]);
  }

  lemma NobodyIsStuck(b: Batch, sites: seq<Site>, concurrency: nat) returns (e: Event)
    requires Inv(b, sites, concurrency) && concurrency > 0 && !AllDone(b)
    ensures Enabled(b, e, concurrency) && !e.CancelContext?
  {
    if g :| 0 <= g < |b.groups| && Holds(b.groups[g].phase) {
      assert GroupOk(b, g);
      e := if b.groups[g].phase.Calling? then Finish(g, Detail(""))
           else if !HasNext(b.groups[g]) then Leave(g)
           else if b.cancelled then Skip(g) else Begin(g);
    } else {
      NobodyHolds(b.groups);
      var g :| 0 <= g < |b.groups| && !b.groups[g].phase.Done?;
      e := TakeSlot(g);
    }
  }

  lemma {:induction false} NobodyHolds(groups: seq<Group>)
    requires forall g :: 0 <= g < |groups| ==> !Holds(groups[g].phase)
    ensures Holders(groups) == 0
  {
    if groups != [] {
      NobodyHolds(groups[..|groups| - 1]);
    }
  }

  /** The steps of the first `n` that are no cancellation. */
  function Work(events: seq<Event>, n: nat): nat
    requires n <= |events|
  {
    if n == 0 then 0 else Work(events, n - 1) + if events[n - 1].CancelContext? then 0 else 1
  }

  lemma WorkStep(b: Batch, e: Event, sites: seq<Site>, concurrency: nat)
    requires Inv(b, sites, concurrency) && Enabled(b, e, concurrency)
    requires forall g :: 0 <= g < |b.groups| ==> b.groups[g].pos <= |b.groups[g].sites|
    requires forall g :: 0 <= g < |Apply(b, e, concurrency).groups| ==>
               Apply(b, e, concurrency).groups[g].pos <= |Apply(b, e, concurrency).groups[g].sites|
    ensures TotalLeft(Apply(b, e, concurrency).groups) + (if e.CancelContext? then 0 else 1) <= TotalLeft(b.groups)
  {
    hide Inv, TotalLeft;
    if !e.CancelContext? {
      StepsRunOut(b, e, sites, concurrency);
    }
  }

  lemma RunTakesStep(states: seq<Batch>, events: seq<Event>, sites: seq<Site>, concurrency: nat, n: nat)
    requires Run(states, events, sites, concurrency)
    ensures |states| == |events| + 1
    ensures n < |events| ==>
              Enabled(states[n], events[n], concurrency) && states[n + 1] == Apply(states[n], events[n], concurrency)
  {
    hide Enabled, Apply, Inv;
  }

  lemma {:induction false} WorkRunsOut(states: seq<Batch>, events: seq<Event>, sites: seq<Site>, concurrency: nat, n: nat)
    requires Run(states, events, sites, concurrency) && n < |states|
    ensures forall g :: 0 <= g < |states[0].groups| ==> states[0].groups[g].pos <= |states[0].groups[g].sites|
    ensures forall g :: 0 <= g < |states[n].groups| ==> states[n].groups[g].pos <= |states[n].groups[g].sites|
    ensures Work(events, n) + TotalLeft(states[n].groups) <= TotalLeft(states[0].groups)
    decreases n
  {
    hide Inv, TotalLeft, Enabled, Run;
    RunTakesStep(states, events, sites, concurrency, n);
    RunKeepsInv(states, events, sites, concurrency, n);
    PositionsFit(states[n], sites, concurrency);
    if n > 0 {
      RunKeepsInv(states, events, sites, concurrency, n - 1);
      RunTakesStep(states, events, sites, concurrency, n - 1);
      WorkRunsOut(states, events, sites, concurrency, n - 1);
      WorkStep(states[n - 1], events[n - 1], sites, concurrency);
    }
  }

  /** Main result on termination: every schedule ends if the command does. A run takes at most a fixed
      number of steps that are no cancellation, and when no such step can be taken every goroutine is
      done. */
  lemma EveryScheduleEnds(states: seq<Batch>, events: seq<Event>, sites: seq<Site>, concurrency: nat)
    requires Run(states, events, sites, concurrency) && concurrency > 0
    ensures forall g :: 0 <= g < |states[0].groups| ==> states[0].groups[g].pos <= |states[0].groups[g].sites|
    ensures Work(events, |events|) <= TotalLeft(states[0].groups)
    ensures var last := states[|events|];
            (forall e: Event :: Enabled(last, e, concurrency) ==> e.CancelContext?) ==> AllDone(last)
  {
    WorkRunsOut(states, events, sites, concurrency, |events|);
    RunKeepsInv(states, events, sites, concurrency, |events|);
    hide Run, Inv, Enabled, TotalLeft, AllDone;
    if !AllDone(states[|events|]) {
      var e := NobodyIsStuck(states[|events|], sites, concurrency);
    }
  }

  // ------------------------------------------------ what the results say

  /** The events that record a result. */
  predicate Records(e: Event) {
    e.Finish? || e.Skip?
  }

  function Recordings(events: seq<Event>, n: nat): nat
    requires n <= |events|
  {
    if n == 0 then 0 else Recordings(events, n - 1) + if Records(events[n - 1]) then 1 else 0
  }

  /** `r` is what `e` says of the site whose turn it is in its group: that its command succeeded, with
      what it returned, that it failed, with its error, or that it was skipped after a cancellation. */
  predicate Reports(b: Batch, e: Event, r: SiteResult) {
    && Records(e) && e.g < |b.groups| && HasNext(b.groups[e.g]) && r.site == b.groups[e.g].sites[b.groups[e.g].pos]
    && match e
       case Finish(_, Detail(text)) => r.status == StatusOK && r.detail == text
       case Finish(_, Error(message)) => r.status == StatusFailed && r.detail == message
       case _ => b.cancelled && r.status == StatusSkipped && r.detail == "context cancelled"
  }

  lemma StepRecords(b: Batch, e: Event, concurrency: nat)
    requires Enabled(b, e, concurrency)
    ensures var z := Apply(b, e, concurrency);
            if Records(e) then |z.results| == |b.results| + 1 && z.results[..|b.results|] == b.results && Reports(b, e, z.results[|b.results|])
            else z.results == b.results
    ensures b.cancelled ==> !e.Begin?
  {
  }

  /** Main result on outcomes: the results of a parallel batch are, in order, what the events that record
      one say, and nothing else; after a cancellation no command is begun. */
  lemma {:induction false} ResultsAreReported(states: seq<Batch>, events: seq<Event>, sites: seq<Site>, concurrency: nat, n: nat, m: nat)
    requires Run(states, events, sites, concurrency) && m < n <= |events|
    ensures |states[n].results| == Recordings(events, n)
    ensures Recordings(events, m) <= |states[n].results|
    ensures Records(events[m]) ==> Recordings(events, m) < |states[n].results| && Reports(states[m], events[m], states[n].results[Recordings(events, m)])
    ensures states[m].cancelled ==> !events[m].Begin?
    decreases n
  {
    hide Run, Enabled, Apply, Records, Reports, Inv;
    ResultsAreCounted(states, events, sites, concurrency, n - 1);
    RunTakesStep(states, events, sites, concurrency, n - 1);
    StepRecords(states[n - 1], events[n - 1], concurrency);
    if m < n - 1 {
      ResultsAreReported(states, events, sites, concurrency, n - 1, m);
      assert states[n].results[..|states[n - 1].results|] == states[n - 1].results;
    }
  }

  lemma {:induction false} ResultsAreCounted(states: seq<Batch>, events: seq<Event>, sites: seq<Site>, concurrency: nat, n: nat)
    requires Run(states, events, sites, concurrency) && n <= |events|
    ensures n < |states| && |states[n].results| == Recordings(events, n)
    decreases n
  {
    RunTakesStep(states, events, sites, concurrency, n);
    if n == 0 {
      hide Enabled, Apply, Partition;
    } else {
      hide Run, Enabled, Apply, Records;
      RunTakesStep(states, events, sites, concurrency, n - 1);
      ResultsAreCounted(states, events, sites, concurrency, n - 1);
      StepRecords(states[n - 1], events[n - 1], concurrency);
    }
  }
}
