/**
 * AccountManager: one AccountConnection per configured account, in
 * configuration order; fetching fans out over them into an insertion-ordered
 * map keyed by account, and closing walks them in the same order. Both stop
 * at the first exception.
 *
 * The walks are specified in closed form: find the first connection whose
 * step throws; every connection up to and including it has stepped once,
 * every later one is untouched.
 */
module Manager {
  import opened Outcomes
  import opened Mail
  import opened Connection
  import opened LinkedMaps

  // ---------------------------------------------------------------------
  // getMessages
  // ---------------------------------------------------------------------

  /** Whether connection j's fetch, from its state before the walk, throws. */
  predicate FetchFails(states: seq<Handles>, servers: seq<Server>, maxMails: int, j: nat)
    requires j < |states| == |servers|
  {
    Fetch(states[j], servers[j], maxMails).result.Err?
  }

  /** The first connection, from index i on, whose fetch throws; |states| if none does. */
  function FirstFetchFailure(states: seq<Handles>, servers: seq<Server>, maxMails: int, i: nat): (k: nat)
    requires i <= |states| == |servers|
    ensures i <= k <= |states|
    ensures forall j :: i <= j < k ==> !FetchFails(states, servers, maxMails, j)
    ensures k < |states| ==> FetchFails(states, servers, maxMails, k)
    decreases |states| - i
  {
    if i == |states| || FetchFails(states, servers, maxMails, i) then i
    else FirstFetchFailure(states, servers, maxMails, i + 1)
  }

  /** The window each connection returns from its server. */
  function Windows(servers: seq<Server>, maxMails: int): (r: seq<seq<nat>>)
    ensures |r| == |servers|
    ensures forall j :: 0 <= j < |servers| ==> r[j] == Window(servers[j].messageCount, maxMails)
  {
    seq(|servers|, j requires 0 <= j < |servers| => Window(servers[j].messageCount, maxMails))
  }

  /** The handles of every connection, and what a walk returned. */
  datatype Round = Round(states: seq<Handles>, result: Result<LinkedMap<Account, seq<nat>>, MailError>)

  /** The handles after connections 0 .. n - 1 have each fetched once; the rest keep theirs. */
  function Fetched(states: seq<Handles>, servers: seq<Server>, maxMails: int, n: nat): (r: seq<Handles>)
    requires n <= |states| == |servers|
    ensures |r| == |states|
    ensures forall j :: 0 <= j < |states| ==>
              r[j] == if j < n then Fetch(states[j], servers[j], maxMails).handles else states[j]
  {
    seq(|states|, j requires 0 <= j < |states| =>
      if j < n then Fetch(states[j], servers[j], maxMails).handles else states[j])
  }

  lemma FetchedNext(states: seq<Handles>, servers: seq<Server>, maxMails: int, n: nat)
    requires n < |states| == |servers|
    ensures Fetched(states, servers, maxMails, n + 1) ==
            Fetched(states, servers, maxMails, n)[n := Fetch(states[n], servers[n], maxMails).handles]
  {
  }

  /** How many connections a fetch walk calls: up to and including the first that throws. */
  function Reached(states: seq<Handles>, servers: seq<Server>, maxMails: int): (n: nat)
    requires |states| == |servers|
    ensures n <= |states|
    ensures forall j :: 0 <= j < n - 1 ==> !FetchFails(states, servers, maxMails, j)
    ensures n < |states| ==> 0 < n && FetchFails(states, servers, maxMails, n - 1)
  {
    var k := FirstFetchFailure(states, servers, maxMails, 0);
    if k < |states| then k + 1 else k
  }

  /**
   * A whole fetch walk: connections up to the first failing one step, the
   * rest keep their handles; the result is that failure's exception, or,
   * if none fails, every window put under its account in order.
   */
  function FetchAll(accounts: seq<Account>, states: seq<Handles>, servers: seq<Server>, maxMails: int): Round
    requires |states| == |accounts| == |servers|
  {
    var k := FirstFetchFailure(states, servers, maxMails, 0);
    if k < |states| then
      Round(Fetched(states, servers, maxMails, k + 1), Err(Fetch(states[k], servers[k], maxMails).result.error))
    else
      Round(Fetched(states, servers, maxMails, k), Ok(PutAll(accounts, Windows(servers, maxMails))))
  }

  /** A fetch walk keeps every connection's folder behind a connected store. */
  lemma FetchAllCoherent(accounts: seq<Account>, states: seq<Handles>, servers: seq<Server>, maxMails: int)
    requires |states| == |accounts| == |servers|
    requires forall j :: 0 <= j < |states| ==> Coherent(states[j])
    ensures forall j :: 0 <= j < |states| ==> Coherent(FetchAll(accounts, states, servers, maxMails).states[j])
  {
    forall j | 0 <= j < |states| {
      StepsPreserveCoherent(states[j], servers[j], maxMails, true);
    }
  }

  /** What a successful walk returns: the windows put under their accounts, in order. */
  lemma FetchAllMap(accounts: seq<Account>, states: seq<Handles>, servers: seq<Server>, maxMails: int)
    requires |states| == |accounts| == |servers|
    requires FetchAll(accounts, states, servers, maxMails).result.Ok?
    ensures FetchAll(accounts, states, servers, maxMails).result.value == PutAll(accounts, Windows(servers, maxMails))
  {
  }

  /**
   * The keys of a successful walk's map are the accounts in configuration
   * order with repeats collapsed, so the map has at most one entry per
   * connection, and exactly one iff the accounts are pairwise distinct.
   */
  lemma FetchAllKeys(accounts: seq<Account>, states: seq<Handles>, servers: seq<Server>, maxMails: int)
    requires |states| == |accounts| == |servers|
    requires FetchAll(accounts, states, servers, maxMails).result.Ok?
    ensures var m := FetchAll(accounts, states, servers, maxMails).result.value;
            Keys(m) == FirstOccurrences(accounts) &&
            |m| <= |accounts| && (|m| == |accounts| <==> Distinct(accounts))
  {
    FetchAllMap(accounts, states, servers, maxMails);
    var ws := Windows(servers, maxMails);
    PutAllKeys(accounts, ws);
    PutAllSize(accounts, ws);
  }

  /**
   * The values of a successful walk's map: each account maps to the window
   * of its last connection, and with distinct accounts entry j is
   * connection j's account and window.
   */
  lemma FetchAllValues(accounts: seq<Account>, states: seq<Handles>, servers: seq<Server>, maxMails: int)
    requires |states| == |accounts| == |servers|
    requires FetchAll(accounts, states, servers, maxMails).result.Ok?
    ensures var m := FetchAll(accounts, states, servers, maxMails).result.value;
            var ws := Windows(servers, maxMails);
            (forall j :: 0 <= j < |accounts| && accounts[j] !in accounts[j + 1..] ==> Get(m, accounts[j]) == Some(ws[j])) &&
            (Distinct(accounts) ==> |m| == |accounts| && forall j :: 0 <= j < |accounts| ==> m[j] == (accounts[j], ws[j]))
  {
    FetchAllMap(accounts, states, servers, maxMails);
    var ws := Windows(servers, maxMails);
    forall j | 0 <= j < |accounts| && accounts[j] !in accounts[j + 1..]
      ensures Get(PutAll(accounts, ws), accounts[j]) == Some(ws[j])
    {
      PutAllLastWins(accounts, ws, j);
    }
    if Distinct(accounts) {
      PutAllDistinct(accounts, ws);
    }
  }

  /**
   * The walk succeeds iff no connection's fetch throws, and then every
   * connection has fetched; a failing walk returns the exception of the
   * first connection that threw and leaves every later one untouched.
   */
  lemma FetchAllFailFast(accounts: seq<Account>, states: seq<Handles>, servers: seq<Server>, maxMails: int)
    requires |states| == |accounts| == |servers|
    ensures var r := FetchAll(accounts, states, servers, maxMails);
            (r.result.Ok? <==> forall j :: 0 <= j < |states| ==> !FetchFails(states, servers, maxMails, j)) &&
            (r.result.Ok? ==> forall j :: 0 <= j < |states| ==> r.states[j] == Fetch(states[j], servers[j], maxMails).handles) &&
            (r.result.Err? ==>
              exists k :: 0 <= k < |states| && FetchFails(states, servers, maxMails, k) &&
                (forall j :: 0 <= j < k ==> !FetchFails(states, servers, maxMails, j)) &&
                r.result.error == Fetch(states[k], servers[k], maxMails).result.error &&
                forall j :: k < j < |states| ==> r.states[j] == states[j])
  {
    var k := FirstFetchFailure(states, servers, maxMails, 0);
    if k < |states| {
      assert FetchFails(states, servers, maxMails, k);
    }
  }

  /** Walking past connection k: it is the first failure iff its fetch throws. */
  lemma FirstFetchFailureStep(states: seq<Handles>, servers: seq<Server>, maxMails: int, k: nat)
    requires k < |states| == |servers| && k <= FirstFetchFailure(states, servers, maxMails, 0)
    ensures FetchFails(states, servers, maxMails, k) ==> FirstFetchFailure(states, servers, maxMails, 0) == k
    ensures !FetchFails(states, servers, maxMails, k) ==> k < FirstFetchFailure(states, servers, maxMails, 0)
  {
  }

  /** Two sequences of handles that agree at every index are equal. */
  lemma SameStates(a: seq<Handles>, b: seq<Handles>)
    requires |a| == |b| && forall j :: 0 <= j < |a| ==> a[j] == b[j]
    ensures a == b
  {
  }

  /** Two sequences of counts that agree at every index are equal. */
  lemma SameCounts(a: seq<nat>, b: seq<nat>)
    requires |a| == |b| && forall j :: 0 <= j < |a| ==> a[j] == b[j]
    ensures a == b
  {
  }

  /** The handshake counts after connections 0 .. n - 1 have each fetched once. */
  function Counted(counts: seq<nat>, states: seq<Handles>, servers: seq<Server>, maxMails: int, n: nat): (r: seq<nat>)
    requires |counts| == |states| == |servers| && n <= |states|
    ensures |r| == |states|
    ensures forall j :: 0 <= j < |states| ==>
              r[j] == counts[j] + if j < n && Fetch(states[j], servers[j], maxMails).handshake then 1 else 0
  {
    seq(|states|, j requires 0 <= j < |states| =>
      counts[j] + if j < n && Fetch(states[j], servers[j], maxMails).handshake then 1 else 0)
  }

  lemma CountedNext(counts: seq<nat>, states: seq<Handles>, servers: seq<Server>, maxMails: int, n: nat)
    requires |counts| == |states| == |servers| && n < |states|
    ensures Counted(counts, states, servers, maxMails, n + 1) ==
            Counted(counts, states, servers, maxMails, n)[n := counts[n] + if Fetch(states[n], servers[n], maxMails).handshake then 1 else 0]
  {
  }

  // ---------------------------------------------------------------------
  // close
  // ---------------------------------------------------------------------

  /**
   * Whether connection j's close, from its state before the walk, throws;
   * `linksUp[j]` says whether its connection to the server is still up.
   */
  predicate CloseFails(states: seq<Handles>, linksUp: seq<bool>, j: nat)
    requires j < |states| == |linksUp|
  {
    CloseHandles(states[j], linksUp[j]).result.Fail?
  }

  /** The first connection, from index i on, whose close throws; |states| if none does. */
  function FirstCloseFailure(states: seq<Handles>, linksUp: seq<bool>, i: nat): (k: nat)
    requires i <= |states| == |linksUp|
    ensures i <= k <= |states|
    ensures forall j :: i <= j < k ==> !CloseFails(states, linksUp, j)
    ensures k < |states| ==> CloseFails(states, linksUp, k)
    decreases |states| - i
  {
    if i == |states| || CloseFails(states, linksUp, i) then i
    else FirstCloseFailure(states, linksUp, i + 1)
  }

  /** Walking past connection k: it is the first failure iff its close throws. */
  lemma FirstCloseFailureStep(states: seq<Handles>, linksUp: seq<bool>, k: nat)
    requires k < |states| == |linksUp| && k <= FirstCloseFailure(states, linksUp, 0)
    ensures CloseFails(states, linksUp, k) ==> FirstCloseFailure(states, linksUp, 0) == k
    ensures !CloseFails(states, linksUp, k) ==> k < FirstCloseFailure(states, linksUp, 0)
  {
  }

  /** The handles of every connection, and whether the close walk threw. */
  datatype CloseRound = CloseRound(states: seq<Handles>, result: Outcome<MailError>)

  /** The handles after connections 0 .. n - 1 have each closed once; the rest keep theirs. */
  function Closed(states: seq<Handles>, linksUp: seq<bool>, n: nat): (r: seq<Handles>)
    requires n <= |states| == |linksUp|
    ensures |r| == |states|
    ensures forall j :: 0 <= j < |states| ==>
              r[j] == if j < n then CloseHandles(states[j], linksUp[j]).handles else states[j]
  {
    seq(|states|, j requires 0 <= j < |states| =>
      if j < n then CloseHandles(states[j], linksUp[j]).handles else states[j])
  }

  lemma ClosedNext(states: seq<Handles>, linksUp: seq<bool>, n: nat)
    requires n < |states| == |linksUp|
    ensures Closed(states, linksUp, n + 1) == Closed(states, linksUp, n)[n := CloseHandles(states[n], linksUp[n]).handles]
  {
  }

  /**
   * A whole close walk: the connections up to and including the first
   * failing one each close once, the rest keep their handles.
   */
  function CloseAll(states: seq<Handles>, linksUp: seq<bool>): CloseRound
    requires |states| == |linksUp|
  {
    var k := FirstCloseFailure(states, linksUp, 0);
    if k < |states| then CloseRound(Closed(states, linksUp, k + 1), CloseHandles(states[k], linksUp[k]).result)
    else CloseRound(Closed(states, linksUp, k), Pass)
  }

  /** A close walk keeps every connection's folder behind a connected store. */
  lemma CloseAllCoherent(states: seq<Handles>, linksUp: seq<bool>)
    requires |states| == |linksUp|
    requires forall j :: 0 <= j < |states| ==> Coherent(states[j])
    ensures forall j :: 0 <= j < |states| ==> Coherent(CloseAll(states, linksUp).states[j])
  {
    forall j | 0 <= j < |states| {
      StepsPreserveCoherent(states[j], Server(true, true, 0), 0, linksUp[j]);
    }
  }

  /**
   * The close walk returns iff no connection's close throws, and then every
   * connection is unconnected; otherwise it throws the first failing
   * connection's exception, the connections before it are unconnected, that
   * one holds what its failed close left, and all later ones are not closed
   * at all.
   */
  lemma CloseAllFailFast(states: seq<Handles>, linksUp: seq<bool>)
    requires |states| == |linksUp|
    ensures var r := CloseAll(states, linksUp);
            (r.result.Pass? <==> forall j :: 0 <= j < |states| ==> !CloseFails(states, linksUp, j)) &&
            (r.result.Pass? ==> forall j :: 0 <= j < |states| ==> r.states[j] == Unconnected) &&
            (r.result.Fail? ==>
              exists k :: 0 <= k < |states| && CloseFails(states, linksUp, k) &&
                (forall j :: 0 <= j < k ==> r.states[j] == Unconnected) &&
                r.result == CloseHandles(states[k], linksUp[k]).result &&
                r.states[k] == CloseHandles(states[k], linksUp[k]).handles &&
                forall j :: k < j < |states| ==> r.states[j] == states[j])
  {
    var k := FirstCloseFailure(states, linksUp, 0);
    var r := CloseAll(states, linksUp);
    if k < |states| {
      assert CloseFails(states, linksUp, k);
      assert forall j :: 0 <= j < k ==> r.states[j] == Unconnected by {
        forall j | 0 <= j < k ensures r.states[j] == Unconnected {
          assert !CloseFails(states, linksUp, j);
        }
      }
    } else {
      forall j | 0 <= j < |states| ensures r.states[j] == Unconnected {
        assert !CloseFails(states, linksUp, j);
      }
    }
  }

  /**
   * Closing a manager twice, after a close that returned, finds nothing to
   * release, whatever the state of the connections to the servers.
   */
  lemma CloseAllIdempotent(states: seq<Handles>, linksUp: seq<bool>, linksUpLater: seq<bool>)
    requires |states| == |linksUp| == |linksUpLater|
    requires CloseAll(states, linksUp).result.Pass?
    ensures CloseAll(CloseAll(states, linksUp).states, linksUpLater) == CloseAll(states, linksUp)
  {
    CloseAllFailFast(states, linksUp);
    var after := CloseAll(states, linksUp).states;
    CloseAllFailFast(after, linksUpLater);
    assert forall j :: 0 <= j < |after| ==> !CloseFails(after, linksUpLater, j);
  }

  // ---------------------------------------------------------------------
  // The class
  // ---------------------------------------------------------------------

  class AccountManager {
    const accounts: seq<Account>
    const connections: seq<AccountConnection>

    /** One connection per account, in account order, no connection shared. */
    ghost predicate Valid() {
      && |connections| == |accounts|
      && (forall i :: 0 <= i < |connections| ==> connections[i].account == accounts[i])
      && (forall i, j :: 0 <= i < j < |connections| ==> connections[i] != connections[j])
    }

    /** The handles of every connection, in order. */
    ghost function States(): (r: seq<Handles>)
      reads connections
      ensures |r| == |connections| && forall i :: 0 <= i < |connections| ==> r[i] == connections[i].State()
    {
      seq(|connections|, i requires 0 <= i < |connections| reads connections => connections[i].State())
    }

    /** How many handshakes each connection has started, in order. */
    ghost function Handshakes(): (r: seq<nat>)
      reads connections
      ensures |r| == |connections| && forall i :: 0 <= i < |connections| ==> r[i] == connections[i].handshakes
    {
      seq(|connections|, i requires 0 <= i < |connections| reads connections => connections[i].handshakes)
    }

    constructor (accounts: seq<Account>)
      ensures this.accounts == accounts && Valid()
      ensures forall i :: 0 <= i < |connections| ==> fresh(connections[i])
      ensures forall i :: 0 <= i < |connections| ==> connections[i].State() == Unconnected
      ensures forall i :: 0 <= i < |connections| ==> connections[i].handshakes == 0
    {
      var cs: seq<AccountConnection> := [];
      for k := 0 to |accounts|
        invariant |cs| == k
        invariant forall i :: 0 <= i < k ==> fresh(cs[i]) && cs[i].account == accounts[i] && cs[i].State() == Unconnected && cs[i].handshakes == 0
        invariant forall i, j :: 0 <= i < j < k ==> cs[i] != cs[j]
      {
        var c := new AccountConnection(accounts[k]);
        cs := cs + [c];
      }
      this.accounts := accounts;
      connections := cs;
    }

    method GetAccountCount() returns (n: nat)
      requires Valid()
      ensures n == |connections|
    {
      n := |accounts|;
    }

    /**
     * Step k of the fetch walk: connection k's getMessages call. Before it,
     * connections 0 .. k - 1 have fetched from `start`; after it, 0 .. k have.
     */
    method FetchConnection(k: nat, servers: seq<Server>, maxMails: int, ghost start: seq<Handles>, ghost counts: seq<nat>)
      returns (r: Result<seq<nat>, MailError>)
      requires Valid() && k < |connections| == |servers| == |start| == |counts|
      requires States() == Fetched(start, servers, maxMails, k)
      requires Handshakes() == Counted(counts, start, servers, maxMails, k)
      modifies connections[k]
      ensures States() == Fetched(start, servers, maxMails, k + 1)
      ensures Handshakes() == Counted(counts, start, servers, maxMails, k + 1)
      ensures r == Fetch(start[k], servers[k], maxMails).result
    {
      ghost var before, h0 := States(), Handshakes();
      assert before[k] == start[k] && h0[k] == counts[k];
      r := connections[k].GetMessages(servers[k], maxMails);
      forall j | 0 <= j < |connections| && j != k
        ensures connections[j].State() == before[j] && connections[j].handshakes == h0[j]
      {
        assert connections[j] != connections[k];
      }
      var step := Fetch(start[k], servers[k], maxMails);
      SameStates(States(), before[k := step.handles]);
      SameCounts(Handshakes(), h0[k := counts[k] + if step.handshake then 1 else 0]);
      FetchedNext(start, servers, maxMails, k);
      CountedNext(counts, start, servers, maxMails, k);
    }

    method GetMessages(servers: seq<Server>, maxMails: int) returns (r: Result<LinkedMap<Account, seq<nat>>, MailError>)
      requires Valid() && |servers| == |connections|
      modifies connections
      ensures var round := FetchAll(accounts, old(States()), servers, maxMails);
              States() == round.states && r == round.result
      ensures Handshakes() == Counted(old(Handshakes()), old(States()), servers, maxMails, Reached(old(States()), servers, maxMails))
    {
      ghost var start, h0 := States(), Handshakes();
      ghost var ws := Windows(servers, maxMails);
      var messages: LinkedMap<Account, seq<nat>> := [];
      for k := 0 to |connections|
        invariant k <= FirstFetchFailure(start, servers, maxMails, 0)
        invariant States() == Fetched(start, servers, maxMails, k)
        invariant Handshakes() == Counted(h0, start, servers, maxMails, k)
        invariant messages == PutAll(accounts[..k], ws[..k])
      {
        var fetched := FetchConnection(k, servers, maxMails, start, h0);
        FirstFetchFailureStep(start, servers, maxMails, k);
        if fetched.Err? {
          assert Reached(start, servers, maxMails) == k + 1;
          return Err(fetched.error);
        }
        FetchReturnsWindow(start[k], servers[k], maxMails);
        assert fetched.value == ws[k];
        PutAllSnoc(accounts, ws, k);
        assert connections[k].account == accounts[k];
        messages := Put(messages, connections[k].account, fetched.value);
      }
      assert accounts[..|connections|] == accounts && ws[..|connections|] == ws;
      assert Reached(start, servers, maxMails) == |connections|;
      r := Ok(messages);
    }

    /**
     * Step k of the close walk: connection k's close call. Before it,
     * connections 0 .. k - 1 have closed from `start`; after it, 0 .. k have.
     */
    method CloseConnection(k: nat, linksUp: seq<bool>, ghost start: seq<Handles>) returns (r: Outcome<MailError>)
      requires Valid() && k < |connections| == |start| == |linksUp|
      requires States() == Closed(start, linksUp, k)
      modifies connections[k]
      ensures States() == Closed(start, linksUp, k + 1)
      ensures Handshakes() == old(Handshakes())
      ensures r == CloseHandles(start[k], linksUp[k]).result
    {
      ghost var before, h0 := States(), Handshakes();
      assert before[k] == start[k];
      r := connections[k].Close(linksUp[k]);
      forall j | 0 <= j < |connections| && j != k
        ensures connections[j].State() == before[j] && connections[j].handshakes == h0[j]
      {
        assert connections[j] != connections[k];
      }
      SameStates(States(), before[k := CloseHandles(start[k], linksUp[k]).handles]);
      SameCounts(Handshakes(), h0);
      ClosedNext(start, linksUp, k);
    }

    /**
     * Closes every connection in order; `linksUp[j]` says whether connection
     * j's link to its server is still up.
     */
    method Close(linksUp: seq<bool>) returns (r: Outcome<MailError>)
      requires Valid() && |linksUp| == |connections|
      modifies connections
      ensures var round := CloseAll(old(States()), linksUp);
              States() == round.states && r == round.result
      ensures Handshakes() == old(Handshakes())
    {
      ghost var start, h0 := States(), Handshakes();
      for k := 0 to |connections|
        invariant k <= FirstCloseFailure(start, linksUp, 0)
        invariant States() == Closed(start, linksUp, k)
        invariant Handshakes() == h0
      {
        var closed := CloseConnection(k, linksUp, start);
        FirstCloseFailureStep(start, linksUp, k);
        if closed.Fail? {
          return closed;
        }
      }
      r := Pass;
    }
  }
}
