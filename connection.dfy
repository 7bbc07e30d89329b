/**
 * AccountConnection: one mail account's lazily opened, reusable store and
 * inbox folder, and the bounded "newest first" fetch window.
 *
 * Each method of the class is proved against a pure step function on the
 * pair of handles (Fetch, CloseHandles); the properties of the connection
 * (window shape, reuse, idempotent close, the state a failed open leaves)
 * are lemmas about those step functions.
 */
module Connection {
  import opened Outcomes
  import opened Mail

  /** An account descriptor; a Java record, so equality is field-wise. */
  datatype Account = Account(
    index: int, host: string, port: int, user: string, password: string, inboxName: string)

  /** The connection's two nullable fields: emailStore and emailFolder. */
  datatype Handles = Handles(store: Option<Store>, folder: Option<Folder>)

  const Unconnected: Handles := Handles(None, None)

  /** The guard of the handshake: either field is still null. */
  predicate NeedsHandshake(h: Handles) {
    h.store.None? || h.folder.None?
  }

  /**
   * What the source's fields can hold between calls: a folder is only ever
   * obtained from a store that has connected.
   */
  predicate Coherent(h: Handles) {
    h.folder.Some? ==> h.store == Some(Store(true))
  }

  function Min(a: int, b: int): int {
    if a <= b then a else b
  }

  // ---------------------------------------------------------------------
  // The fetch window
  // ---------------------------------------------------------------------

  /**
   * The positions the counting-down loop collects from position `i` on,
   * having already taken `taken` messages, under the limit `maxMails`.
   */
  function NewestFrom(i: nat, taken: int, maxMails: int): seq<nat>
    decreases i
  {
    if i > 0 && taken < maxMails then [i] + NewestFrom(i - 1, taken + 1, maxMails) else []
  }

  /** The positions one fetch returns from a folder of `count` messages. */
  function Window(count: nat, maxMails: int): seq<nat> {
    NewestFrom(count, 0, maxMails)
  }

  lemma {:induction false} NewestFromShape(i: nat, taken: int, maxMails: int)
    ensures |NewestFrom(i, taken, maxMails)| == if taken >= maxMails then 0 else Min(i, maxMails - taken)
    ensures forall j :: 0 <= j < |NewestFrom(i, taken, maxMails)| ==> NewestFrom(i, taken, maxMails)[j] == i - j
  {
    if i > 0 && taken < maxMails {
      NewestFromShape(i - 1, taken + 1, maxMails);
    }
  }

  /** A fetch returns min(maxMails, count) positions, and none for a non-positive limit. */
  lemma WindowSize(count: nat, maxMails: int)
    ensures |Window(count, maxMails)| == if maxMails <= 0 then 0 else Min(maxMails, count)
    ensures Window(count, maxMails) == [] <==> count == 0 || maxMails <= 0
  {
    NewestFromShape(count, 0, maxMails);
  }

  /**
   * The window is the newest messages, newest first: position count, then
   * count - 1, and so on; so it is strictly decreasing and within 1..count.
   */
  lemma WindowNewestFirst(count: nat, maxMails: int)
    ensures forall j :: 0 <= j < |Window(count, maxMails)| ==> Window(count, maxMails)[j] == count - j
    ensures forall j :: 0 <= j < |Window(count, maxMails)| ==> 1 <= Window(count, maxMails)[j] <= count
    ensures forall j, k :: 0 <= j < k < |Window(count, maxMails)| ==> Window(count, maxMails)[j] > Window(count, maxMails)[k]
  {
    NewestFromShape(count, 0, maxMails);
  }

  /** The positions returned are exactly the `k` newest ones, count - k + 1 .. count. */
  lemma WindowIsNewestSet(count: nat, maxMails: int)
    ensures var w := Window(count, maxMails);
            forall p :: p in w <==> count - |w| < p <= count
  {
    var w := Window(count, maxMails);
    NewestFromShape(count, 0, maxMails);
    forall p | count - |w| < p <= count ensures p in w {
      assert w[count - p] == p;
    }
  }

  // ---------------------------------------------------------------------
  // Step functions
  // ---------------------------------------------------------------------

  /** The handles after one fetch, whether it ran the handshake, and what it returned. */
  datatype FetchStep = FetchStep(handles: Handles, handshake: bool, result: Result<seq<nat>, MailError>)

  /** The read part of a fetch, on a folder that is present. */
  function Read(h: Handles, handshake: bool, count: nat, maxMails: int): FetchStep
    requires h.folder.Some?
  {
    var w := Window(count, maxMails);
    if h.folder.value.open || w == [] then FetchStep(h, handshake, Ok(w))
    else FetchStep(h, handshake, Err(FolderNotOpen))
  }

  /**
   * One getMessages call. The store is assigned before it connects and the
   * folder before it opens, so a failure leaves that field set.
   */
  function Fetch(h: Handles, server: Server, maxMails: int): FetchStep {
    if NeedsHandshake(h) then
      if !server.acceptsLogin then
        FetchStep(Handles(Some(Store(false)), h.folder), true, Err(LoginRejected))
      else if !server.opensInbox then
        FetchStep(Handles(Some(Store(true)), Some(Folder(false))), true, Err(FolderOpenRejected))
      else
        Read(Handles(Some(Store(true)), Some(Folder(true))), true, server.messageCount, maxMails)
    else
      Read(h, false, server.messageCount, maxMails)
  }

  /** The handles after one close, and whether it threw. */
  datatype CloseStep = CloseStep(handles: Handles, result: Outcome<MailError>)

  /**
   * One close call: the folder is closed and nulled first, then the store.
   * Closing a folder that is not open throws before anything is nulled.
   * `linkUp` says whether the connection to the server is still up: when it
   * has dropped, closing an open folder throws too, the library marks the
   * folder closed, and both fields keep their handles.
   */
  function CloseHandles(h: Handles, linkUp: bool): CloseStep {
    if h.folder.Some? && !h.folder.value.open then CloseStep(h, Fail(FolderNotOpen))
    else if h.folder.Some? && !linkUp then CloseStep(Handles(h.store, Some(Folder(false))), Fail(ConnectionLost))
    else CloseStep(Unconnected, Pass)
  }

  // ---------------------------------------------------------------------
  // Properties of a connection
  // ---------------------------------------------------------------------

  /**
   * The handshake runs exactly when a field is null; a successful fetch
   * returns the window, and one that read anything leaves a connected store
   * and an open folder.
   */
  lemma FetchHandshakeIff(h: Handles, server: Server, maxMails: int)
    requires Coherent(h)
    ensures Fetch(h, server, maxMails).handshake <==> NeedsHandshake(h)
    ensures Fetch(h, server, maxMails).result.Ok? ==>
              Fetch(h, server, maxMails).result.value == Window(server.messageCount, maxMails)
    ensures Fetch(h, server, maxMails).result.Ok? && Window(server.messageCount, maxMails) != [] ==>
              Fetch(h, server, maxMails).handles.store == Some(Store(true)) &&
              Fetch(h, server, maxMails).handles.folder == Some(Folder(true))
  {
  }

  /** A fetch that returns, returns the window of the server's current count. */
  lemma FetchReturnsWindow(h: Handles, server: Server, maxMails: int)
    requires Fetch(h, server, maxMails).result.Ok?
    ensures Fetch(h, server, maxMails).result.value == Window(server.messageCount, maxMails)
  {
  }

  /** A fetch that needs no handshake leaves both handles as they were. */
  lemma FetchReusesHandles(h: Handles, server: Server, maxMails: int)
    requires !NeedsHandshake(h)
    ensures Fetch(h, server, maxMails).handles == h
    ensures !Fetch(h, server, maxMails).handshake
  {
  }

  /**
   * Two fetches with no close in between, on a connection that starts
   * unconnected: if the first succeeds, exactly one handshake runs, and the
   * second call reuses the handles and returns its own current window (the
   * inbox may have grown between the calls).
   */
  lemma SecondFetchReuses(h: Handles, first: Server, second: Server, maxMails: int)
    requires NeedsHandshake(h) && Fetch(h, first, maxMails).result.Ok?
    ensures var s1 := Fetch(h, first, maxMails);
            var s2 := Fetch(s1.handles, second, maxMails);
            s1.handshake && !s2.handshake && s2.handles == s1.handles &&
            s2.result == Ok(Window(second.messageCount, maxMails))
  {
  }

  /** Fetch and close keep a folder only behind a connected store. */
  lemma StepsPreserveCoherent(h: Handles, server: Server, maxMails: int, linkUp: bool)
    requires Coherent(h)
    ensures Coherent(Fetch(h, server, maxMails).handles)
    ensures Coherent(CloseHandles(h, linkUp).handles)
  {
  }

  /**
   * A close that returns leaves both fields null. It throws exactly when a
   * folder is held that is not open, or an open one while the connection is
   * down; then both fields keep their handles and the folder is not open.
   */
  lemma CloseResets(h: Handles, linkUp: bool)
    ensures CloseHandles(h, linkUp).result.Pass? <==> h.folder.None? || (h.folder.value.open && linkUp)
    ensures CloseHandles(h, linkUp).result == Fail(FolderNotOpen) <==> h.folder.Some? && !h.folder.value.open
    ensures CloseHandles(h, linkUp).result == Fail(ConnectionLost) <==> h.folder.Some? && h.folder.value.open && !linkUp
    ensures CloseHandles(h, linkUp).result.Pass? ==> CloseHandles(h, linkUp).handles == Unconnected
    ensures CloseHandles(h, linkUp).result.Fail? ==>
              CloseHandles(h, linkUp).handles == Handles(h.store, Some(Folder(false)))
  {
  }

  /**
   * Closing twice is closing once: the second close finds nothing to
   * release, whatever the state of the connection to the server.
   */
  lemma CloseIdempotent(h: Handles, linkUp: bool, linkUpLater: bool)
    requires CloseHandles(h, linkUp).result.Pass?
    ensures CloseHandles(CloseHandles(h, linkUp).handles, linkUpLater) == CloseHandles(h, linkUp)
  {
  }

  /** After a close that returned, the next fetch reconnects. */
  lemma CloseThenFetchReconnects(h: Handles, linkUp: bool, server: Server, maxMails: int)
    requires CloseHandles(h, linkUp).result.Pass?
    ensures Fetch(CloseHandles(h, linkUp).handles, server, maxMails).handshake
  {
  }

  /**
   * A close that throws because the connection dropped is not undone either:
   * a connected store and a closed folder stay in the fields, so later
   * fetches skip the handshake and fail whenever there is anything to read,
   * and every later close throws.
   */
  lemma DroppedCloseSticks(h: Handles, later: Server, maxMails: int, linkUpLater: bool)
    requires h == Handles(Some(Store(true)), Some(Folder(true)))
    ensures var step := CloseHandles(h, false);
            var stuck := step.handles;
            step.result == Fail(ConnectionLost) &&
            stuck == Handles(Some(Store(true)), Some(Folder(false))) &&
            !NeedsHandshake(stuck) &&
            !Fetch(stuck, later, maxMails).handshake &&
            Fetch(stuck, later, maxMails).handles == stuck &&
            (Fetch(stuck, later, maxMails).result.Err? <==> Window(later.messageCount, maxMails) != []) &&
            CloseHandles(stuck, linkUpLater) == CloseStep(stuck, Fail(FolderNotOpen))
  {
  }

  /**
   * A failed open is not "unconnected": the store is connected and the
   * closed folder stays in its field, so later fetches skip the handshake
   * and fail whenever there is anything to read, and close throws too.
   */
  lemma FailedOpenSticks(h: Handles, server: Server, later: Server, maxMails: int, linkUp: bool)
    requires NeedsHandshake(h) && server.acceptsLogin && !server.opensInbox
    ensures var stuck := Fetch(h, server, maxMails).handles;
            stuck == Handles(Some(Store(true)), Some(Folder(false))) &&
            !NeedsHandshake(stuck) &&
            !Fetch(stuck, later, maxMails).handshake &&
            Fetch(stuck, later, maxMails).handles == stuck &&
            (Fetch(stuck, later, maxMails).result.Err? <==> Window(later.messageCount, maxMails) != []) &&
            CloseHandles(stuck, linkUp) == CloseStep(stuck, Fail(FolderNotOpen))
  {
  }

  /** A failed login leaves a store that never connected; the next fetch retries the handshake. */
  lemma FailedLoginRetries(h: Handles, server: Server, later: Server, maxMails: int)
    requires Coherent(h) && NeedsHandshake(h) && !server.acceptsLogin
    ensures Fetch(h, server, maxMails).handles == Handles(Some(Store(false)), None)
    ensures Fetch(Fetch(h, server, maxMails).handles, later, maxMails).handshake
  {
  }

  // ---------------------------------------------------------------------
  // The class
  // ---------------------------------------------------------------------

  /**
   * Collects the newest messages of `folder`, counting down from position
   * `count` while fewer than `maxMails` have been taken.
   */
  method CollectNewest(folder: Folder, count: nat, maxMails: int) returns (r: Result<seq<nat>, MailError>)
    ensures r.Ok? ==> r.value == Window(count, maxMails)
    ensures r.Err? <==> !folder.open && Window(count, maxMails) != []
    ensures r.Err? ==> r.error == FolderNotOpen
  {
    var l: seq<nat> := [];
    var i: nat := count;
    var taken := 0;
    while i > 0 && taken < maxMails
      invariant i <= count && taken == count - i
      invariant l + NewestFrom(i, taken, maxMails) == Window(count, maxMails)
      invariant l == [] || folder.open
    {
      var m := GetMessage(folder, i);
      if m.Err? {
        return Err(m.error);
      }
      l := l + [m.value];
      i, taken := i - 1, taken + 1;
    }
    r := Ok(l);
  }

  class AccountConnection {
    const account: Account
    var store: Option<Store>
    var folder: Option<Folder>
    /** How many handshakes this connection has started, for the reuse properties. */
    ghost var handshakes: nat

    function State(): Handles
      reads this
    {
      Handles(store, folder)
    }

    constructor (account: Account)
      ensures this.account == account && State() == Unconnected && handshakes == 0
    {
      this.account := account;
      store, folder := None, None;
      handshakes := 0;
    }

    method GetMessages(server: Server, maxMails: int) returns (r: Result<seq<nat>, MailError>)
      modifies this
      ensures var step := Fetch(old(State()), server, maxMails);
              State() == step.handles && r == step.result &&
              handshakes == old(handshakes) + (if step.handshake then 1 else 0)
    {
      if store.None? || folder.None? {
        handshakes := handshakes + 1;
        store := Some(Store(false));
        if !server.acceptsLogin {
          return Err(LoginRejected);
        }
        store := Some(Store(true));
        folder := Some(Folder(false));
        if !server.opensInbox {
          return Err(FolderOpenRejected);
        }
        folder := Some(Folder(true));
      }
      r := CollectNewest(folder.value, server.messageCount, maxMails);
    }

    method Close(linkUp: bool) returns (r: Outcome<MailError>)
      modifies this
      ensures var step := CloseHandles(old(State()), linkUp);
              State() == step.handles && r == step.result && handshakes == old(handshakes)
    {
      if folder.Some? {
        if !folder.value.open {
          return Fail(FolderNotOpen);
        }
        if !linkUp {
          folder := Some(Folder(false));
          return Fail(ConnectionLost);
        }
        folder := None;
      }
      if store.Some? {
        store := None;
      }
      r := Pass;
    }
  }
}
