/**
  CServerSocket's list of clients and the poll table beside it: every entry behind the internal ones
  belongs to the client of the same position, whatever is added, removed, accepted or dropped.
 */
module PollTable {
  /** A connection, as far as the dispatcher is concerned. */
  datatype Client = Client(fd: int, error: bool)

  /** `readable` and `hungUp` are POLLIN and POLLHUP in revents. */
  datatype PollFd = PollFd(fd: int, readable: bool, hungUp: bool)

  function Fds(clients: seq<Client>): (fds: seq<int>)
    ensures |fds| == |clients| && forall k :: 0 <= k < |fds| ==> fds[k] == clients[k].fd
  {
    if clients == [] then [] else [clients[0].fd] + Fds(clients[1..])
  }

  function Quiet(fds: seq<int>): (entries: seq<PollFd>)
    ensures |entries| == |fds| && forall k :: 0 <= k < |fds| ==> entries[k] == PollFd(fds[k], false, false)
  {
    if fds == [] then [] else [PollFd(fds[0], false, false)] + Quiet(fds[1..])
  }

  /** The clients another descriptor than `fd` belongs to, in order. */
  function Others(clients: seq<Client>, fd: int): seq<Client> {
    if clients == [] then []
    else (if clients[0].fd == fd then [] else [clients[0]]) + Others(clients[1..], fd)
  }

  /** The clients without an error, in order. */
  function Sound(clients: seq<Client>): seq<Client> {
    if clients == [] then [] else (if clients[0].error then [] else [clients[0]]) + Sound(clients[1..])
  }

  lemma OthersHead(clients: seq<Client>, fd: int)
    ensures clients == [] ==> Others(clients, fd) == []
    ensures clients != [] ==> Others(clients, fd) == (if clients[0].fd == fd then
          [] else [clients[0]]) + Others(clients[1..], fd)
  {}

  lemma {:induction false} OthersOne(clients: seq<Client>, c: Client, fd: int)
    ensures Others(clients + [c], fd) == Others(clients, fd) + (if c.fd == fd then [] else [c])
    decreases |clients|
  {
    hide Others;
    OthersHead(clients, fd);
    OthersHead(clients + [c], fd);
    var last := if c.fd == fd then [] else [c];
    if clients == [] {
      assert (clients + [c])[1..] == [];
      OthersHead([], fd);
      assert last + [] == last && [] + last == last;
    } else {
      OthersOne(clients[1..], c, fd);
      assert (clients + [c])[0] == clients[0] && (clients + [c])[1..] == clients[1..] + [c];
      var first := if clients[0].fd == fd then [] else [clients[0]];
      assert first + (Others(clients[1..], fd) + last) == first + Others(clients[1..], fd) + last;
    }
  }

  lemma SoundHead(clients: seq<Client>)
    ensures clients == [] ==> Sound(clients) == []
    ensures clients != [] ==> Sound(clients) == (if clients[0].error then [] else [clients[0]]) + Sound(clients[1..])
  {}

  lemma {:induction false} SoundOne(clients: seq<Client>, c: Client)
    ensures Sound(clients + [c]) == Sound(clients) + (if c.error then [] else [c])
    decreases |clients|
  {
    hide Sound;
    SoundHead(clients);
    SoundHead(clients + [c]);
    var last := if c.error then [] else [c];
    if clients == [] {
      assert (clients + [c])[1..] == [];
      SoundHead([]);
      assert last + [] == last && [] + last == last;
    } else {
      SoundOne(clients[1..], c);
      assert (clients + [c])[0] == clients[0] && (clients + [c])[1..] == clients[1..] + [c];
      var first := if clients[0].error then [] else [clients[0]];
      assert first + (Sound(clients[1..]) + last) == first + Sound(clients[1..]) + last;
    }
  }

  /** Where a client that stays comes to stand: behind the staying ones before it. */
  lemma {:induction false} SoundPlaces(clients: seq<Client>)
    ensures |Sound(clients)| <= |clients|
    ensures forall k :: 0 <= k < |clients| && !clients[k].error ==>
              |Sound(clients[..k])| < |Sound(clients)| && Sound(clients)[|Sound(clients[..k])|] == clients[k]
    ensures forall c :: c in Sound(clients) <==> c in clients && !c.error
    decreases |clients|
  {
    hide Sound;
    if clients == [] {
      NobodySound();
    } else {
      var init, last := clients[..|clients| - 1], clients[|clients| - 1];
      SoundPlaces(init);
      SoundOne(init, last);
      assert clients == init + [last];
      forall k | 0 <= k < |clients| && !clients[k].error
        ensures |Sound(clients[..k])| < |Sound(clients)| && Sound(clients)[|Sound(clients[..k])|] == clients[k]
      {
        assert clients[..k] == init[..k];
        if k == |init| { assert init[..k] == init; }
      }
    }
  }

  /** Where a client of another descriptor comes to stand: behind those of other descriptors before it. */
  lemma {:induction false} OthersPlaces(clients: seq<Client>, fd: int)
    ensures |Others(clients, fd)| <= |clients|
    ensures forall k :: 0 <= k < |clients| && clients[k].fd != fd ==>
              && |Others(clients[..k], fd)| < |Others(clients, fd)|
              && Others(clients, fd)[|Others(clients[..k], fd)|] == clients[k]
    ensures forall c :: c in Others(clients, fd) <==> c in clients && c.fd != fd
    decreases |clients|
  {
    hide Others;
    OthersHead(clients, fd);
    if clients != [] {
      var init, last := clients[..|clients| - 1], clients[|clients| - 1];
      OthersPlaces(init, fd);
      OthersOne(init, last, fd);
      assert clients == init + [last];
      forall k | 0 <= k < |clients| && clients[k].fd != fd
        ensures && |Others(clients[..k], fd)| < |Others(clients, fd)|
                && Others(clients, fd)[|Others(clients[..k], fd)|] == clients[k]
      {
        assert clients[..k] == init[..k];
        if k == |init| { assert init[..k] == init; }
      }
    }
  }

  lemma NobodySound()
    ensures Sound([]) == []
  {}

  // ---- what a pass over the existing connections does -----------------------------------------

  /**
    The client at position `k` behind the pass: `verdicts[k]` tells whether dispatching it raised an
    error; a hangup raises one too.
   */
  function Passed(clients: seq<Client>, entries: seq<PollFd>, verdicts: seq<bool>, k: nat): Client
    requires k < |clients| == |entries| == |verdicts|
  {
    if entries[k].readable then clients[k].(error := clients[k].error || verdicts[k]
          || entries[k].hungUp) else clients[k]
  }

  function PassedUpTo(clients: seq<Client>, entries: seq<PollFd>, verdicts: seq<bool>, n: nat): (r: seq<Client>)
    requires n <= |clients| == |entries| == |verdicts|
    ensures |r| == |clients|
    ensures forall k :: 0 <= k < |clients| ==>
          r[k] == if k < n then Passed(clients, entries, verdicts, k) else clients[k]
  {
    if n == 0 then clients
    else PassedUpTo(clients, entries, verdicts, n - 1)[n - 1 := Passed(clients, entries, verdicts, n - 1)]
  }

  /** Behind a pass a client is in error if it was, if its dispatch raised an error, or if it hung up. */
  lemma ErrorsBehindPass(clients: seq<Client>, entries: seq<PollFd>, verdicts: seq<bool>)
    requires |clients| == |entries| == |verdicts|
    ensures var passed := PassedUpTo(clients, entries, verdicts, |entries|);
            && |passed| == |clients|
            && forall k :: 0 <= k < |clients| ==>
                 && passed[k].fd == clients[k].fd
                 && (passed[k].error <==>
                     clients[k].error || (entries[k].readable && (verdicts[k] || entries[k].hungUp)))
  {
    hide PassedUpTo;
  }

  /** The clients that stay were without an error before, and nothing of the pass raised one. */
  lemma StayedAs(clients: seq<Client>, entries: seq<PollFd>, verdicts: seq<bool>, passed: seq<Client>,
          stayed: seq<Client>)
    requires |clients| == |entries| == |verdicts| == |passed|
    requires forall k :: 0 <= k < |clients| ==>
               && passed[k].fd == clients[k].fd
               && (passed[k].error <==> clients[k].error || (entries[k].readable && (verdicts[k] || entries[k].hungUp)))
    requires forall c :: c in stayed <==> c in passed && !c.error
    ensures forall c :: c in stayed <==>
              exists k :: 0 <= k < |entries| && c == clients[k]
                  && !c.error && !(entries[k].readable && (verdicts[k] || entries[k].hungUp))
  {
    forall c | c in stayed
      ensures exists k :: 0 <= k < |entries| && c == clients[k]
                  && !c.error && !(entries[k].readable && (verdicts[k] || entries[k].hungUp))
    {
      var k :| 0 <= k < |passed| && passed[k] == c;
      assert c == clients[k];
    }
    forall k | 0 <= k < |entries| && !clients[k].error && !(entries[k].readable && (verdicts[k] || entries[k].hungUp))
      ensures clients[k] in stayed
    {
      assert passed[k] == clients[k];
    }
  }

  predicate HangupUpTo(entries: seq<PollFd>, n: nat)
    requires n <= |entries|
  {
    exists k :: 0 <= k < n && entries[k].readable && entries[k].hungUp
  }

  function ReadableUpTo(entries: seq<PollFd>, n: nat): seq<int>
    requires n <= |entries|
  {
    if n == 0 then []
    else ReadableUpTo(entries, n - 1) + (if entries[n - 1].readable then [entries[n - 1].fd] else [])
  }

  lemma HangupMeans(entries: seq<PollFd>)
    ensures HangupUpTo(entries, |entries|) <==>
            exists k :: 0 <= k < |entries| && entries[k].readable && entries[k].hungUp
  {}

  lemma NoneFurther(clients: seq<Client>, entries: seq<PollFd>, verdicts: seq<bool>)
    requires |clients| == |entries| == |verdicts|
    ensures PassedUpTo(clients, entries, verdicts, 0) == clients && ReadableUpTo(entries, 0) == []
    ensures !HangupUpTo(entries, 0)
  {}

  lemma OneFurther(clients: seq<Client>, entries: seq<PollFd>, verdicts: seq<bool>, k: nat)
    requires k < |clients| == |entries| == |verdicts|
    ensures PassedUpTo(clients, entries, verdicts, k + 1) ==
            PassedUpTo(clients, entries, verdicts, k)[k := Passed(clients, entries, verdicts, k)]
    ensures ReadableUpTo(entries, k + 1) ==
            ReadableUpTo(entries, k) + if entries[k].readable then [entries[k].fd] else []
    ensures HangupUpTo(entries, k + 1) <==> HangupUpTo(entries, k) || (entries[k].readable && entries[k].hungUp)
  {}

  lemma ReadableOne(entries: seq<PollFd>, n: nat)
    requires n <= |entries|
    ensures n == 0 ==> ReadableUpTo(entries, n) == []
    ensures n > 0 ==> ReadableUpTo(entries, n) ==
                      ReadableUpTo(entries, n - 1) + if entries[n - 1].readable then [entries[n - 1].fd] else []
  {}

  /** No two clients share a descriptor: then each readable one is dispatched once, others never. */
  lemma {:induction false} DispatchedOnce(entries: seq<PollFd>, n: nat)
    requires n <= |entries|
    requires forall j, k :: 0 <= j < k < |entries| ==> entries[j].fd != entries[k].fd
    ensures forall k :: 0 <= k < |entries| ==>
              multiset(ReadableUpTo(entries, n))[entries[k].fd] == (if k < n && entries[k].readable then 1 else 0)
    decreases n
  {
    hide ReadableUpTo;
    ReadableOne(entries, n);
    if n > 0 {
      DispatchedOnce(entries, n - 1);
      var last := if entries[n - 1].readable then [entries[n - 1].fd] else [];
      assert multiset(ReadableUpTo(entries, n)) == multiset(ReadableUpTo(entries, n - 1)) + multiset(last);
    }
  }

  /** A descriptor that is none. */
  const INVALID := -1

  class ServerSocket {
    const isEmptyListener: bool
    const listenFd: int
    const wakeupFd: int
    var exportFd: int
    var exitFd: int
    var clients: seq<Client>
    var pollfds: seq<PollFd>
    /** History: the descriptors dispatchClient was called on. */
    ghost var dispatched: seq<int>

    function InternalFds(): seq<int>
      reads this`exitFd
    {
      if isEmptyListener then [exitFd, wakeupFd] else [listenFd, exitFd, wakeupFd]
    }

    function Internal(): nat { if isEmptyListener then 2 else 3 }

    /** The table is the internal descriptors followed by those of the clients, in order. */
    ghost predicate Aligned()
      reads this
    {
      && |pollfds| == Internal() + |clients|
      && (forall k :: 0 <= k < Internal() ==> pollfds[k].fd == InternalFds()[k])
      && (forall k :: 0 <= k < |clients| ==> pollfds[Internal() + k].fd == clients[k].fd)
    }

    /** The entries of the clients. */
    ghost function Entries(): seq<PollFd>
      reads this
      requires Aligned()
    {
      pollfds[Internal()..]
    }

    /** attempt or attemptEmpty: nothing is exported yet. */
    constructor (isEmptyListener: bool, listenFd: int, wakeupFd: int)
      ensures Aligned() && clients == [] && dispatched == [] && exportFd == exitFd == INVALID
      ensures this.isEmptyListener == isEmptyListener && this.listenFd == listenFd && this.wakeupFd == wakeupFd
      ensures pollfds == Quiet(InternalFds())
    {
      this.isEmptyListener, this.listenFd, this.wakeupFd := isEmptyListener, listenFd, wakeupFd;
      exportFd, exitFd := INVALID, INVALID;
      clients, pollfds, dispatched := [], [], [];
      new;
      RecheckPollFds();
      assert InternalFds() + Fds(clients) == InternalFds();
    }

    /**
      extractLoopFD up to the start of the thread; the arguments are the reading ends of the pipes it
      opens, INVALID if opening one fails. The descriptors are made once: a second call changes nothing.
     */
    method ExtractLoopFD(exportPipe: int, exitPipe: int) returns (fd: int)
      requires Aligned()
      modifies this`exportFd, this`exitFd, this`pollfds
      ensures Aligned()
      ensures var opens := old(exportFd) == INVALID && exportPipe != INVALID;
              && exportFd == (if opens then exportPipe else old(exportFd))
              && exitFd == (if opens && exitPipe != INVALID then exitPipe else old(exitFd))
              && fd == (if opens && exitPipe == INVALID then INVALID else exportFd)
              && pollfds == (if opens && exitPipe != INVALID then Quiet(InternalFds() + Fds(clients)) else old(pollfds))
    {
      if exportFd == INVALID {
        if exportPipe == INVALID { return INVALID; }
        exportFd := exportPipe;
        if exitPipe == INVALID { return INVALID; }
        exitFd := exitPipe;
        RecheckPollFds();
      }
      fd := exportFd;
    }

    method RecheckPollFds()
      modifies this`pollfds
      ensures Aligned() && pollfds == Quiet(InternalFds() + Fds(clients))
      ensures !isEmptyListener ==> |pollfds| == 3 + |clients| && pollfds[0].fd == listenFd
      ensures isEmptyListener ==> |pollfds| == 2 + |clients|
      ensures var n := |pollfds| - |clients|; pollfds[n - 2].fd == exitFd && pollfds[n - 1].fd == wakeupFd
    {
      hide Fds, Quiet;
      pollfds := [];
      if !isEmptyListener {
        pollfds := pollfds + [PollFd(listenFd, false, false)];
      }
      pollfds := pollfds + [PollFd(exitFd, false, false)];
      pollfds := pollfds + [PollFd(wakeupFd, false, false)];
      var i := 0;
      ghost var all := InternalFds() + Fds(clients);
      while i < |clients|
        invariant 0 <= i <= |clients| && |pollfds| == Internal() + i
        invariant forall k :: 0 <= k < |pollfds| ==> pollfds[k] == PollFd(all[k], false, false)
      {
        pollfds := pollfds + [PollFd(clients[i].fd, false, false)];
        i := i + 1;
      }
      assert |Quiet(all)| == |pollfds| && forall k :: 0 <= k < |pollfds| ==> pollfds[k] == Quiet(all)[k];
    }

    /** addClient; an invalid descriptor is turned away. */
    method AddClient(fd: int, valid: bool) returns (ok: bool)
      requires Aligned()
      modifies this`clients, this`pollfds
      ensures Aligned() && ok == valid
      ensures clients == old(clients) + (if valid then [Client(fd, false)] else [])
      ensures pollfds == if valid then Quiet(InternalFds() + Fds(clients)) else old(pollfds)
    {
      if !valid { return false; }
      clients := clients + [Client(fd, false)];
      RecheckPollFds();
      ok := true;
    }

    /** removeClient: all entries of the descriptor go, the others keep their order. */
    method RemoveClient(fd: int) returns (ok: bool)
      requires Aligned()
      modifies this`clients, this`pollfds
      ensures Aligned()
      ensures clients == Others(old(clients), fd)
      ensures forall c :: c in clients <==> c in old(clients) && c.fd != fd
      ensures ok <==> exists c :: c in old(clients) && c.fd == fd
      ensures pollfds == if ok then Quiet(InternalFds() + Fds(clients)) else old(pollfds)
    {
      OthersPlaces(clients, fd);
      ok := EraseFd(fd);
      if ok { RecheckPollFds(); }
    }

    method EraseFd(fd: int) returns (any: bool)
      modifies this`clients
      ensures clients == Others(old(clients), fd) && (!any ==> clients == old(clients))
      ensures any <==> exists c :: c in old(clients) && c.fd == fd
    {
      var kept: seq<Client> := [];
      var i := 0;
      any := false;
      while i < |clients|
        invariant clients == old(clients) && 0 <= i <= |clients|
        invariant kept == Others(clients[..i], fd)
        invariant any <==> exists c :: c in clients[..i] && c.fd == fd
        invariant !any ==> kept == clients[..i]
      {
        OthersOne(clients[..i], clients[i], fd);
        assert clients[..i + 1] == clients[..i] + [clients[i]];
        if clients[i].fd == fd { any := true; } else { kept := kept + [clients[i]]; }
        i := i + 1;
      }
      assert clients[..i] == clients;
      clients := kept;
    }

    /** poll: the kernel sets the returned events, the table stays. */
    method Poll(readable: seq<bool>, hungUp: seq<bool>)
      requires Aligned() && |readable| == |hungUp| == |pollfds|
      modifies this`pollfds
      ensures Aligned() && |pollfds| == |old(pollfds)|
      ensures forall k :: 0 <= k < |pollfds| ==> pollfds[k] == PollFd(old(pollfds)[k].fd, readable[k], hungUp[k])
    {
      var i := 0;
      while i < |pollfds|
        invariant 0 <= i <= |pollfds| == |old(pollfds)|
        invariant forall k :: 0 <= k < |pollfds| ==>
                    pollfds[k] == if k < i then PollFd(old(pollfds)[k].fd, readable[k], hungUp[k]) else old(pollfds)[k]
      {
        pollfds := pollfds[i := PollFd(pollfds[i].fd, readable[i], hungUp[i])];
        i := i + 1;
      }
    }

    /** dispatchNewConnections; `accepted` is what accept returns. */
    method DispatchNewConnections(accepted: int) returns (any: bool)
      requires Aligned()
      modifies this`clients, this`pollfds
      ensures Aligned()
      ensures any <==> !isEmptyListener && old(pollfds)[0].readable
      ensures clients == old(clients) + (if any then [Client(accepted, false)] else [])
      ensures pollfds == if any then Quiet(InternalFds() + Fds(clients)) else old(pollfds)
    {
      if isEmptyListener { return false; }
      if !pollfds[0].readable { return false; }
      clients := clients + [Client(accepted, false)];
      RecheckPollFds();
      any := true;
    }

    /** dispatchClient as seen from here: it may raise the client's error, never clear it. */
    method DispatchClient(k: nat, raises: bool)
      requires k < |clients|
      modifies this`clients, this`dispatched
      ensures clients == old(clients)[k := old(clients)[k].(error := old(clients)[k].error || raises)]
      ensures dispatched == old(dispatched) + [old(clients)[k].fd]
    {
      dispatched := dispatched + [clients[k].fd];
      if raises { clients := clients[k := clients[k].(error := true)]; }
    }

    /**
      dispatchExistingConnections, with listeners that add and remove no clients: every readable client
      is dispatched, in order. If one of the readable ones hung up, all clients in error are dropped,
      the others keep their order and the table is rebuilt; if none did, all stay.
     */
    method DispatchExistingConnections(verdicts: seq<bool>) returns (hadAny: bool)
      requires Aligned() && |verdicts| == |clients|
      modifies this`clients, this`pollfds, this`dispatched
      ensures Aligned()
      ensures var entries := old(Entries());
              && dispatched == old(dispatched) + ReadableUpTo(entries, |entries|)
              && (hadAny <==> exists k :: 0 <= k < |entries| && entries[k].readable)
              && var passed := PassedUpTo(old(clients), entries, verdicts, |entries|);
              if HangupUpTo(entries, |entries|) then
                clients == Sound(passed) && pollfds == Quiet(InternalFds() + Fds(clients))
              else
                clients == passed && pollfds == old(pollfds)
      ensures var entries := old(Entries());
              (exists k :: 0 <= k < |entries| && entries[k].readable && entries[k].hungUp) ==>
                forall c :: c in clients <==>
                  exists k :: 0 <= k < |entries| && c == old(clients)[k]
                      && !c.error && !(entries[k].readable && (verdicts[k] || entries[k].hungUp))
      ensures var entries := old(Entries());
              !(exists k :: 0 <= k < |entries| && entries[k].readable && entries[k].hungUp) ==>
                && |clients| == |old(clients)|
                && forall k :: 0 <= k < |clients| ==>
                     clients[k] == Client(old(clients)[k].fd,
                                          old(clients)[k].error || (entries[k].readable && verdicts[k]))
    {
      hide Fds, Quiet, Sound, PassedUpTo, ReadableUpTo, HangupUpTo;
      ErrorsBehindPass(clients, Entries(), verdicts);
      HangupMeans(Entries());
      var needsPollRecheck;
      hadAny, needsPollRecheck := DispatchReadable(verdicts);
      if needsPollRecheck {
        SoundPlaces(clients);
        ghost var passed := clients;
        EraseErrored();
        StayedAs(old(clients), old(Entries()), verdicts, passed, clients);
        RecheckPollFds();
      }
    }

    /** The loop over the entries of the clients. */
    method DispatchReadable(verdicts: seq<bool>) returns (hadAny: bool, needsPollRecheck: bool)
      requires Aligned() && |verdicts| == |clients|
      modifies this`clients, this`dispatched
      ensures Aligned()
      ensures var entries := old(Entries());
              && clients == PassedUpTo(old(clients), entries, verdicts, |entries|)
              && dispatched == old(dispatched) + ReadableUpTo(entries, |entries|)
              && (hadAny <==> exists k :: 0 <= k < |entries| && entries[k].readable)
              && needsPollRecheck == HangupUpTo(entries, |entries|)
    {
      hide Fds, Quiet, Sound, PassedUpTo, ReadableUpTo, HangupUpTo;
      hadAny, needsPollRecheck := false, false;
      ghost var entries := Entries();
      var i := Internal();
      NoneFurther(old(clients), entries, verdicts);
      while i < |pollfds|
        invariant Internal() <= i <= |pollfds| && |clients| == |entries|
        invariant clients == PassedUpTo(old(clients), entries, verdicts, i - Internal())
        invariant dispatched == old(dispatched) + ReadableUpTo(entries, i - Internal())
        invariant hadAny <==> exists k :: 0 <= k < i - Internal() && entries[k].readable
        invariant needsPollRecheck == HangupUpTo(entries, i - Internal())
      {
        var k := i - Internal();
        assert entries[k] == pollfds[i];
        OneFurther(old(clients), entries, verdicts, k);
        if pollfds[i].readable {
          DispatchClient(k, verdicts[k]);
          hadAny := true;
          if pollfds[i].hungUp {
            clients := clients[k := clients[k].(error := true)];
            needsPollRecheck := true;
          }
        }
        i := i + 1;
      }
    }

    method EraseErrored()
      modifies this`clients
      ensures clients == Sound(old(clients))
    {
      var kept: seq<Client> := [];
      var i := 0;
      while i < |clients|
        invariant clients == old(clients) && 0 <= i <= |clients| && kept == Sound(clients[..i])
      {
        SoundOne(clients[..i], clients[i]);
        assert clients[..i + 1] == clients[..i] + [clients[i]];
        if !clients[i].error { kept := kept + [clients[i]]; }
        i := i + 1;
      }
      assert clients[..i] == clients;
      clients := kept;
    }
  }
}
