/**
 The one-shot handshake between a request to stop a virtual call and the SCO disconnect it causes:
 the disconnect is then announced as if the remote user had ended the call.
 */
module StopVirtualCall {
  import opened BluetoothTypes
  import opened DeviceRegistry

  datatype StopHandle = StopHandle(device: Address, isWaiting: bool)

  const IDLE := StopHandle(DEFAULT_ADDRESS, false)

  datatype ScoReason = RemoteUserTerminated | OtherReason(code: int)

  /** Told to the hands-free manager; the media manager knows no such action. */
  predicate IsStopRequest(e: Event) {
    e.action == STOP_VIRTUAL_CALL
  }

  predicate Matches(h: StopHandle, d: Address) {
    h.isWaiting && h.device == d
  }

  function AfterSco(h: StopHandle, d: Address, isConnected: bool): StopHandle {
    if !isConnected && Matches(h, d) then IDLE else h
  }

  function AnnouncedState(h: StopHandle, d: Address, isConnected: bool, reason: ScoReason): ConnectState {
    if isConnected then Connected
    else if Matches(h, d) || reason == RemoteUserTerminated then SuspendConnected
    else DeactiveConnected
  }

  /** What the hands-free manager sees: a stop request, a change of an SCO link, or anything else. */
  datatype Signal =
    | StopRequest(device: Address)
    | ScoChange(device: Address, isConnected: bool, reason: ScoReason)
    | Other

  function NextHandle(h: StopHandle, s: Signal): StopHandle {
    match s
    case StopRequest(d) => StopHandle(d, true)
    case ScoChange(d, isConnected, _) => AfterSco(h, d, isConnected)
    case Other => h
  }

  function HandleAfter(run: seq<Signal>): StopHandle {
    if run == [] then IDLE else NextHandle(HandleAfter(run[..|run| - 1]), run[|run| - 1])
  }

  predicate Disconnects(s: Signal, d: Address) {
    s.ScoChange? && !s.isConnected && s.device == d
  }

  /**
   The request at position j is answered by the disconnect at position k: the request is for that
   device, no newer request came, and no earlier disconnect of the device used it up.
   */
  ghost predicate Answers(run: seq<Signal>, j: nat, k: nat)
    requires j < |run| && k < |run|
  {
    && j < k
    && run[j].StopRequest?
    && Disconnects(run[k], run[j].device)
    && forall i | j < i < k :: !run[i].StopRequest? && !Disconnects(run[i], run[j].device)
  }

  /** The request at position j, for device d, is the latest one and still unanswered. */
  ghost predicate Pending(run: seq<Signal>, d: Address, j: nat) {
    && j < |run|
    && run[j] == StopRequest(d)
    && forall i | j < i < |run| :: !run[i].StopRequest? && !Disconnects(run[i], d)
  }

  /**
   The handle waits for a device exactly when the latest request, for that device, is unanswered; when
   it waits for none it is as it was in the beginning.
   */
  lemma {:induction false} WaitingIff(run: seq<Signal>, d: Address)
    ensures Matches(HandleAfter(run), d) <==> exists j: nat :: Pending(run, d, j)
    ensures !HandleAfter(run).isWaiting ==> HandleAfter(run) == IDLE
  {
    if run != [] {
      var n := |run| - 1;
      var before := run[..n];
      WaitingIff(before, d);
      if run[n] == StopRequest(d) {
        assert Pending(run, d, n);
      } else if Matches(HandleAfter(run), d) {
        var j: nat :| Pending(before, d, j);
        assert Pending(run, d, j);
      } else if j: nat :| Pending(run, d, j) {
        assert Pending(before, d, j);
      }
    }
  }

  /** The connection state announced for the SCO change at position k. */
  function AnnouncedAt(run: seq<Signal>, k: nat): ConnectState
    requires k < |run| && run[k].ScoChange?
  {
    AnnouncedState(HandleAfter(run[..k]), run[k].device, run[k].isConnected, run[k].reason)
  }

  /**
   A link that comes up is announced as connected. A disconnect is announced as suspended exactly when
   a request is answered by it or its own reason says that the remote user ended the call.
   */
  lemma SuspendedIff(run: seq<Signal>, k: nat)
    requires k < |run| && run[k].ScoChange?
    ensures AnnouncedAt(run, k) ==
              if run[k].isConnected then Connected
              else if (exists j: nat :: j < |run| && Answers(run, j, k)) || run[k].reason == RemoteUserTerminated
              then SuspendConnected else DeactiveConnected
  {
    var d := run[k].device;
    WaitingIff(run[..k], d);
    if j: nat :| Pending(run[..k], d, j) && !run[k].isConnected {
      assert forall i | j < i < k :: run[..k][i] == run[i];
      assert Answers(run, j, k);
    }
    if j: nat :| j < |run| && Answers(run, j, k) {
      assert Pending(run[..k], d, j);
    }
  }

  /** The disconnect at position k is announced as suspended although its own reason does not say so. */
  predicate Rewritten(run: seq<Signal>, k: nat)
    requires k < |run|
  {
    && run[k].ScoChange? && !run[k].isConnected
    && run[k].reason != RemoteUserTerminated
    && AnnouncedAt(run, k) == SuspendConnected
  }

  /**
   One-shot: when two disconnects are rewritten, of whatever devices, a new request came in between
   and is the one that the later disconnect answers.
   */
  lemma OneShot(run: seq<Signal>, k: nat, k': nat)
    requires k < k' < |run| && Rewritten(run, k) && Rewritten(run, k')
    ensures exists j: nat :: k < j < k' && Answers(run, j, k')
  {
    hide AnnouncedAt;
    SuspendedIff(run, k);
    SuspendedIff(run, k');
  }

  function Requests(run: seq<Signal>): nat {
    if run == [] then 0
    else Requests(run[..|run| - 1]) + if run[|run| - 1].StopRequest? then 1 else 0
  }

  function Rewrites(run: seq<Signal>): nat {
    if run == [] then 0
    else Rewrites(run[..|run| - 1]) + if Rewritten(run, |run| - 1) then 1 else 0
  }

  /** Over every run no more disconnects are rewritten than requests came, and a waiting request is one to spare. */
  lemma {:induction false} RewritesWithinRequests(run: seq<Signal>)
    ensures Rewrites(run) + (if HandleAfter(run).isWaiting then 1 else 0) <= Requests(run)
  {
    if run != [] {
      RewritesWithinRequests(run[..|run| - 1]);
    }
  }
}
