/**
 * The standalone detection server of frigate/server.py: choosing the local
 * backend from the configured detector type, and the per-connection loop
 * `handle_conn` that answers every framed request with one framed reply and
 * counts the requests.
 */
module Server {
  import opened Base
  import opened Network
  import opened EdgeTpuDetector

  /** `DetectorTypeEnum`: the two supported types and any other value of the configuration. */
  datatype DetectorType = Cpu | EdgeTpu | OtherType(tag: string)

  /** The part of `DetectorConfig` the server reads. */
  datatype DetectorConfig = DetectorConfig(kind: DetectorType, device: Option<string>, numThreads: int)

  /** The keyword arguments `ServerApp.start` passes to `LocalObjectDetector`. */
  datatype BackendArgs = BackendArgs(tfDevice: Option<string>, modelPath: Option<string>, numThreads: int)

  /** The backend dispatch of `ServerApp.start`: "cpu" forces the CPU device, "edgetpu" uses the configured device, anything else raises. */
  function SelectBackend(detector: DetectorConfig, modelPath: Option<string>): (r: Result<BackendArgs, string>)
    ensures r.Err? <==> detector.kind.OtherType?
    ensures r.Err? ==> r.error == "Not implemented"
    ensures r.Ok? ==> r.value.modelPath == modelPath && r.value.numThreads == detector.numThreads
    ensures detector.kind == Cpu ==> r.Ok? && r.value.tfDevice == Some("cpu")
    ensures detector.kind == EdgeTpu ==> r.Ok? && r.value.tfDevice == detector.device
  {
    match detector.kind
    case Cpu => Ok(BackendArgs(Some("cpu"), modelPath, detector.numThreads))
    case EdgeTpu => Ok(BackendArgs(detector.device, modelPath, detector.numThreads))
    case OtherType(_) => Err("Not implemented")
  }

  /**
   * The interpreter the server ends up with: type "cpu" always runs on the
   * CPU; type "edgetpu" takes the Edge TPU path unless its device is itself
   * "cpu", and with no device it opens the "usb" TPU.
   */
  lemma ServerInterpreter(detector: DetectorConfig, modelPath: Option<string>, delegateLoads: bool)
    requires !detector.kind.OtherType?
    ensures var a := SelectBackend(detector, modelPath).value;
      var i := SelectInterpreter(a.tfDevice, a.modelPath, a.numThreads, delegateLoads);
      && (detector.kind == Cpu ==> i == Ok(CpuInterpreter(PathOr(modelPath, CPU_MODEL), detector.numThreads)))
      && (detector.kind == EdgeTpu && detector.device == Some("cpu") ==> i.Ok? && i.value.CpuInterpreter?)
      && (detector.kind == EdgeTpu && detector.device == None && delegateLoads ==>
            i == Ok(EdgeTpuInterpreter(DEFAULT_DEVICE, PathOr(modelPath, EDGETPU_MODEL))))
  {
  }

  // ---------------------------------------------------------------------------
  // Request counting and progress logging

  /** A progress line is logged every this many requests. */
  const PROGRESS_EVERY: nat := 100

  /** The progress line (if any) logged when the counter reaches m. */
  function Mark(m: nat): seq<nat>
  {
    if m % PROGRESS_EVERY == 0 then [m] else []
  }

  /** The counter values logged while the counter goes from n0 up by k. */
  function ProgressMarks(n0: nat, k: nat): seq<nat>
    decreases k
  {
    if k == 0 then [] else Mark(n0 + 1) + ProgressMarks(n0 + 1, k - 1)
  }

  /** A value is logged exactly when it is one of the new counter values and a multiple of 100. */
  lemma {:induction false} ProgressMarksExact(n0: nat, k: nat, m: nat)
    ensures m in ProgressMarks(n0, k) <==> n0 < m <= n0 + k && m % PROGRESS_EVERY == 0
    decreases k
  {
    if k > 0 {
      ProgressMarksExact(n0 + 1, k - 1, m);
      assert ProgressMarks(n0, k) == Mark(n0 + 1) + ProgressMarks(n0 + 1, k - 1);
      assert m in Mark(n0 + 1) <==> m == n0 + 1 && m % PROGRESS_EVERY == 0;
    }
  }

  lemma DivStep(k: nat)
    requires k >= 1
    ensures k / PROGRESS_EVERY == (k - 1) / PROGRESS_EVERY + (if k % PROGRESS_EVERY == 0 then 1 else 0)
  {
    var q, r := (k - 1) / 100, (k - 1) % 100;
    assert k - 1 == 100 * q + r && 0 <= r < 100;
    if r == 99 {
      assert k == 100 * (q + 1);
    } else {
      assert k == 100 * q + (r + 1) && r + 1 < 100;
    }
  }

  /** The number of progress lines is the number of multiples of 100 passed; from 0, k requests log k/100 lines. */
  lemma {:induction false} ProgressMarksCount(n0: nat, k: nat)
    ensures |ProgressMarks(n0, k)| == (n0 + k) / PROGRESS_EVERY - n0 / PROGRESS_EVERY
    decreases k
  {
    if k > 0 {
      ProgressMarksCount(n0 + 1, k - 1);
      DivStep(n0 + 1);
      assert |ProgressMarks(n0, k)| == |Mark(n0 + 1)| + |ProgressMarks(n0 + 1, k - 1)|;
      assert |Mark(n0 + 1)| == if (n0 + 1) % PROGRESS_EVERY == 0 then 1 else 0;
    }
  }

  // ---------------------------------------------------------------------------
  // The per-connection loop

  /** A numpy array as `np.load` rebuilds it; its contents are opaque here. */
  datatype NdArray = NdArray(dtype: string, shape: seq<int>, data: seq<byte>)

  /**
   * The server's view of one request: `np.load` of the received payload,
   * which `NPSocket.recv` performs before `handle_conn` counts the request,
   * and `answer`, which is `detect_raw` followed by the `np.save` of
   * `NPSocket.send`. Each gives its value or the exception it raises.
   */
  datatype Backend = Backend(load: seq<byte> -> Result<NdArray, string>, answer: NdArray -> Result<seq<byte>, string>)

  /** The framed reply to a decoded request, or the exception that ends the loop: the backend's, or `struct.error` from packing a length that does not fit. */
  function Answer(b: Backend, request: NdArray): (a: Result<seq<byte>, string>)
    ensures a.Ok? <==> b.answer(request).Ok? && |b.answer(request).value| < TWO_31
    ensures a.Ok? ==> a.value == EncodeFrame(b.answer(request).value).value
    ensures a.Err? && b.answer(request).Err? ==> a.error == b.answer(request).error
    ensures a.Err? && b.answer(request).Ok? ==> a.error == "struct.error"
  {
    match b.answer(request)
    case Err(e) => Err(e)
    case Ok(response) => if |response| >= TWO_31 then Err("struct.error") else Ok(EncodeFrame(response).value)
  }

  /** The reply payload a received request calls for: decode it, then answer it. */
  function Respond(b: Backend, payload: seq<byte>): (r: Result<seq<byte>, string>)
    ensures r.Ok? <==> b.load(payload).Ok? && b.answer(b.load(payload).value).Ok?
    ensures b.load(payload).Err? ==> r == Err(b.load(payload).error)
    ensures r.Ok? ==> r.value == b.answer(b.load(payload).value).value
  {
    match b.load(payload)
    case Err(e) => Err(e)
    case Ok(x) => b.answer(x)
  }

  /** Everything one connection's `handle_conn` does: requests counted, reply bytes sent, request bytes read, and how it ends. */
  datatype Session = Session(handled: nat, replies: seq<byte>, consumed: nat, exit: HandlerExit)

  /**
   * Reference meaning of `handle_conn` on the bytes a peer sends: frame after
   * frame, decode the request, count it and send its framed reply, until
   * `recv` raises `Closed`, decoding raises (the request is then not
   * counted), or answering raises.
   */
  function Serve(s: seq<byte>, b: Backend): (t: Session)
    ensures t.consumed <= |s|
    decreases |s|
  {
    var p := ParseFrame(s);
    match p.result
    case Closed => Session(0, [], p.consumed, RaisedClosed)
    case Frame(payload) =>
      var x := b.load(payload);
      if x.Err? then Session(0, [], p.consumed, Raised(x.error))
      else
        var a := Answer(b, x.value);
        if a.Err? then Session(1, [], p.consumed, Raised(a.error))
        else
          var rest := Serve(s[p.consumed..], b);
          Session(1 + rest.handled, a.value + rest.replies, p.consumed + rest.consumed, rest.exit)
  }

  /** The successive payloads a reader of the stream receives before `Closed`. */
  function Frames(s: seq<byte>): seq<seq<byte>>
    decreases |s|
  {
    var p := ParseFrame(s);
    match p.result
    case Closed => []
    case Frame(x) => [x] + Frames(s[p.consumed..])
  }

  /** The handler loop has no normal exit: it always ends with an exception. */
  lemma {:induction false} ServeNeverReturns(s: seq<byte>, b: Backend)
    ensures Serve(s, b).exit != Returned
    decreases |s|
  {
    var p := ParseFrame(s);
    if p.result.Frame? && b.load(p.result.payload).Ok? && Answer(b, b.load(p.result.payload).value).Ok? {
      ServeNeverReturns(s[p.consumed..], b);
    }
  }

  /** A request `np.load` rejects is read but neither counted nor answered, and ends the session. */
  lemma UndecodableRequestNotCounted(s: seq<byte>, b: Backend)
    requires ParseFrame(s).result.Frame? && b.load(ParseFrame(s).result.payload).Err?
    ensures Serve(s, b) == Session(0, [], ParseFrame(s).consumed, Raised(b.load(ParseFrame(s).result.payload).error))
  {
  }

  /**
   * One reply per request, in order: when the connection ends with `Closed`,
   * every request has been counted, and reading the reply stream yields
   * exactly the answer each request calls for, in turn.
   */
  lemma {:induction false} ServeAnswersEveryRequest(s: seq<byte>, b: Backend)
    requires Serve(s, b).exit == RaisedClosed
    ensures Serve(s, b).handled == |Frames(s)|
    ensures |Frames(Serve(s, b).replies)| == |Frames(s)|
    ensures forall i :: 0 <= i < |Frames(s)| ==> Respond(b, Frames(s)[i]) == Ok(Frames(Serve(s, b).replies)[i])
    decreases |s|
  {
    var p := ParseFrame(s);
    if p.result.Frame? {
      var request := p.result.payload;
      assert b.load(request).Ok?;
      var a := Answer(b, b.load(request).value);
      assert a.Ok?;
      var response := b.answer(b.load(request).value).value;
      assert Respond(b, request) == Ok(response);
      var rest := s[p.consumed..];
      ServeAnswersEveryRequest(rest, b);
      var t := Serve(rest, b);
      assert Serve(s, b) == Session(1 + t.handled, a.value + t.replies, p.consumed + t.consumed, t.exit);
      FrameRoundTrip(response, t.replies);
      assert (a.value + t.replies)[HEADER_SIZE + |response|..] == t.replies;
      var fs := Frames(s);
      var rs := Frames(a.value + t.replies);
      assert fs == [request] + Frames(rest);
      assert rs == [response] + Frames(t.replies);
      forall i | 0 <= i < |fs|
        ensures Respond(b, fs[i]) == Ok(rs[i])
      {
        if i > 0 {
          assert fs[i] == Frames(rest)[i - 1] && rs[i] == Frames(t.replies)[i - 1];
        }
      }
    } else {
      assert Frames(s) == [];
      assert Serve(s, b).replies == [];
      assert ParseFrame([]).result == Closed;
    }
  }

  /** The state `handle_conn`'s loop carries: the counter, the bytes sent so far, the read position and the logged counter values. */
  datatype Totals = Totals(count: nat, sent: seq<byte>, pos: nat, log: seq<nat>)

  /** How the loop ends: its last state and the exception that ends it. */
  datatype Outcome = Outcome(totals: Totals, exit: HandlerExit)

  /** `Serve` on the unread bytes `r`, carrying the loop's state `acc` along: the form the loop of `handle_conn` follows. */
  function ServeFrom(r: seq<byte>, b: Backend, acc: Totals): Outcome
    decreases |r|
  {
    var p := ParseFrame(r);
    match p.result
    case Closed => Outcome(acc.(pos := acc.pos + p.consumed), RaisedClosed)
    case Frame(payload) =>
      var x := b.load(payload);
      if x.Err? then Outcome(acc.(pos := acc.pos + p.consumed), Raised(x.error))
      else
        var count := acc.count + 1;
        var a := Answer(b, x.value);
        if a.Err? then
          Outcome(Totals(count, acc.sent, acc.pos + p.consumed, acc.log + Mark(count)), Raised(a.error))
        else
          ServeFrom(r[p.consumed..], b, Totals(count, acc.sent + a.value, acc.pos + p.consumed, acc.log + Mark(count)))
  }

  /** The effect of one pass of the loop on its state, read as one step of `ServeFrom`. */
  lemma PassIsStep(r: seq<byte>, b: Backend, before: Totals, after: Totals, exit: Option<HandlerExit>, rest: seq<byte>)
    requires var p := ParseFrame(r);
      && after.pos == before.pos + p.consumed && rest == r[p.consumed..]
      && (p.result.Closed? ==>
            exit == Some(RaisedClosed) && after.count == before.count && after.sent == before.sent && after.log == before.log)
      && (p.result.Frame? && b.load(p.result.payload).Err? ==>
            && exit == Some(Raised(b.load(p.result.payload).error))
            && after.count == before.count && after.sent == before.sent && after.log == before.log)
      && (p.result.Frame? && b.load(p.result.payload).Ok? ==>
            var a := Answer(b, b.load(p.result.payload).value);
            && after.count == before.count + 1 && after.log == before.log + Mark(after.count)
            && (a.Err? ==> exit == Some(Raised(a.error)) && after.sent == before.sent)
            && (a.Ok? ==> exit == None && after.sent == before.sent + a.value))
    ensures ServeFrom(r, b, before) == if exit.None? then ServeFrom(rest, b, after) else Outcome(after, exit.value)
  {
  }

  /** The loop state `acc` followed by the session `t` on the rest of the stream. */
  function After(acc: Totals, t: Session): Outcome
  {
    Outcome(Totals(acc.count + t.handled, acc.sent + t.replies, acc.pos + t.consumed, acc.log + ProgressMarks(acc.count, t.handled)), t.exit)
  }

  /** Answering one request first moves the request, its reply bytes, its stream bytes and its progress line from the session into the state. */
  lemma AfterFrame(acc: Totals, frame: seq<byte>, consumed: nat, u: Session)
    ensures After(Totals(acc.count + 1, acc.sent + frame, acc.pos + consumed, acc.log + Mark(acc.count + 1)), u)
         == After(acc, Session(1 + u.handled, frame + u.replies, consumed + u.consumed, u.exit))
  {
    assert acc.sent + frame + u.replies == acc.sent + (frame + u.replies);
    assert ProgressMarks(acc.count, 1 + u.handled) == Mark(acc.count + 1) + ProgressMarks(acc.count + 1, u.handled);
    assert acc.log + Mark(acc.count + 1) + ProgressMarks(acc.count + 1, u.handled)
        == acc.log + (Mark(acc.count + 1) + ProgressMarks(acc.count + 1, u.handled));
  }

  /** The case of a request `np.load` rejects: only the read position moves. */
  lemma ServeFromUndecodable(r: seq<byte>, b: Backend, acc: Totals)
    requires ParseFrame(r).result.Frame? && b.load(ParseFrame(r).result.payload).Err?
    ensures ServeFrom(r, b, acc) == After(acc, Serve(r, b))
  {
    var p := ParseFrame(r);
    assert Serve(r, b) == Session(0, [], p.consumed, Raised(b.load(p.result.payload).error));
    assert acc.sent + [] == acc.sent && acc.log + [] == acc.log;
  }

  /** The case of a decoded request whose answer raises: the counter, the read position and the log move, nothing is sent. */
  lemma ServeFromStops(r: seq<byte>, b: Backend, acc: Totals)
    requires ParseFrame(r).result.Frame? && b.load(ParseFrame(r).result.payload).Ok?
    requires Answer(b, b.load(ParseFrame(r).result.payload).value).Err?
    ensures ServeFrom(r, b, acc) == After(acc, Serve(r, b))
  {
    var p := ParseFrame(r);
    var a := Answer(b, b.load(p.result.payload).value);
    assert Serve(r, b) == Session(1, [], p.consumed, Raised(a.error));
    assert ProgressMarks(acc.count, 1) == Mark(acc.count + 1) + [];
    assert acc.sent + [] == acc.sent;
  }

  /** One step of `ServeFrom` on an answered request. */
  lemma ServeFromUnfold(r: seq<byte>, b: Backend, acc: Totals)
    requires ParseFrame(r).result.Frame? && b.load(ParseFrame(r).result.payload).Ok?
    requires Answer(b, b.load(ParseFrame(r).result.payload).value).Ok?
    ensures var p := ParseFrame(r);
      var frame := Answer(b, b.load(p.result.payload).value).value;
      ServeFrom(r, b, acc)
        == ServeFrom(r[p.consumed..], b, Totals(acc.count + 1, acc.sent + frame, acc.pos + p.consumed, acc.log + Mark(acc.count + 1)))
  {
  }

  /** One step of `Serve` on an answered request. */
  lemma ServeUnfold(r: seq<byte>, b: Backend)
    requires ParseFrame(r).result.Frame? && b.load(ParseFrame(r).result.payload).Ok?
    requires Answer(b, b.load(ParseFrame(r).result.payload).value).Ok?
    ensures var p := ParseFrame(r);
      var frame := Answer(b, b.load(p.result.payload).value).value;
      var u := Serve(r[p.consumed..], b);
      Serve(r, b) == Session(1 + u.handled, frame + u.replies, p.consumed + u.consumed, u.exit)
  {
  }

  /** Carrying the state along is the same as serving the rest and adding its totals to the state afterwards. */
  lemma {:induction false} ServeFromServe(r: seq<byte>, b: Backend, acc: Totals)
    ensures ServeFrom(r, b, acc) == After(acc, Serve(r, b))
    decreases |r|
  {
    var p := ParseFrame(r);
    if p.result.Closed? {
      assert Serve(r, b) == Session(0, [], p.consumed, RaisedClosed);
      assert acc.sent + [] == acc.sent && acc.log + [] == acc.log;
    } else if b.load(p.result.payload).Err? {
      ServeFromUndecodable(r, b, acc);
    } else if Answer(b, b.load(p.result.payload).value).Err? {
      ServeFromStops(r, b, acc);
    } else {
      var frame := Answer(b, b.load(p.result.payload).value).value;
      var rest := r[p.consumed..];
      ServeFromServe(rest, b, Totals(acc.count + 1, acc.sent + frame, acc.pos + p.consumed, acc.log + Mark(acc.count + 1)));
      ServeFromUnfold(r, b, acc);
      ServeUnfold(r, b);
      AfterFrame(acc, frame, p.consumed, Serve(rest, b));
    }
  }

  /** The server's state: the request counter `N` and the progress lines logged so far. */
  class ServerApp {
    /** The decoding of `recv` and the backend built by `start`. */
    const backend: Backend
    var n: nat
    /** The counter value of each "Handled N requests" line. */
    var progress: seq<nat>

    /** The end of `ServerApp.start` before serving: the backend is built and the counter starts at 0. */
    constructor (backend: Backend)
      ensures this.backend == backend && n == 0 && progress == []
    {
      this.backend := backend;
      n := 0;
      progress := [];
    }

    /**
     * One pass of `handle_conn`'s loop: receive and decode a request, count
     * it, log every 100th, send the reply; `None` means go round again.
     */
    method HandleOne(con: NPSocket) returns (exit: Option<HandlerExit>)
      requires con.Valid()
      modifies this`n, this`progress, con
      ensures con.Valid() && con.incoming == old(con.incoming)
      ensures var p := ParseFrame(old(con.Unread()));
        && con.pos == old(con.pos) + p.consumed
        && (p.result.Closed? ==>
              && exit == Some(RaisedClosed) && con.closed
              && n == old(n) && progress == old(progress) && con.outgoing == old(con.outgoing))
        && (p.result.Frame? ==> con.closed == old(con.closed))
        && (p.result.Frame? && backend.load(p.result.payload).Err? ==>
              && exit == Some(Raised(backend.load(p.result.payload).error))
              && n == old(n) && progress == old(progress) && con.outgoing == old(con.outgoing))
        && (p.result.Frame? && backend.load(p.result.payload).Ok? ==>
              var response := backend.answer(backend.load(p.result.payload).value);
              && n == old(n) + 1
              && progress == old(progress) + Mark(n)
              && (response.Err? ==> exit == Some(Raised(response.error)) && con.outgoing == old(con.outgoing))
              && (response.Ok? && |response.value| >= TWO_31 ==>
                    exit == Some(Raised("struct.error")) && con.outgoing == old(con.outgoing))
              && (response.Ok? && |response.value| < TWO_31 ==>
                    exit == None && con.outgoing == old(con.outgoing) + EncodeFrame(response.value).value))
      ensures var before := Totals(old(n), old(con.outgoing), old(con.pos), old(progress));
        var after := Totals(n, con.outgoing, con.pos, progress);
        ServeFrom(old(con.Unread()), backend, before)
          == if exit.None? then ServeFrom(con.Unread(), backend, after) else Outcome(after, exit.value)
    {
      ghost var r := con.Unread();
      ghost var before := Totals(n, con.outgoing, con.pos, progress);
      var a := con.Recv();
      if a.Closed? {
        exit := Some(RaisedClosed);
      } else {
        var request := backend.load(a.payload);
        if request.Err? {
          exit := Some(Raised(request.error));
        } else {
          n := n + 1;
          if n % PROGRESS_EVERY == 0 {
            progress := progress + [n];
          }
          var response := backend.answer(request.value);
          if response.Err? {
            exit := Some(Raised(response.error));
          } else {
            var sent := con.Send(response.value);
            exit := if sent then None else Some(Raised("struct.error"));
          }
        }
      }
      PassIsStep(r, backend, before, Totals(n, con.outgoing, con.pos, progress), exit, con.Unread());
    }

    /**
     * `handle_conn`: receive a request, count it, log every 100th, reply with
     * the backend's answer to it; the loop ends only through an exception.
     */
    method HandleConn(con: NPSocket) returns (exit: HandlerExit)
      requires con.Valid()
      modifies this`n, this`progress, con
      ensures con.Valid() && con.incoming == old(con.incoming)
      ensures var t := Serve(old(con.Unread()), backend);
        && exit == t.exit
        && n == old(n) + t.handled
        && progress == old(progress) + ProgressMarks(old(n), t.handled)
        && con.outgoing == old(con.outgoing) + t.replies
        && con.pos == old(con.pos) + t.consumed
        && con.closed == (old(con.closed) || exit == RaisedClosed)
    {
      ghost var result := ServeFrom(con.Unread(), backend, Totals(n, con.outgoing, con.pos, progress));
      while true
        invariant con.Valid() && con.incoming == old(con.incoming)
        invariant con.closed == old(con.closed)
        invariant result == ServeFrom(con.Unread(), backend, Totals(n, con.outgoing, con.pos, progress))
        decreases |con.incoming| - con.pos
      {
        var e := HandleOne(con);
        if e.Some? {
          exit := e.value;
          break;
        }
      }
      ServeFromServe(old(con.Unread()), backend, Totals(old(n), old(con.outgoing), old(con.pos), old(progress)));
    }

    /**
     * The per-connection `handler` of `listen_and_serve` running
     * `handle_conn`: a `Closed` ending is swallowed and the socket closed;
     * any other exception is re-raised with the socket left as it was.
     */
    method ServeConnection(con: NPSocket) returns (d: Disposition)
      requires con.Valid()
      modifies this`n, this`progress, con
      ensures var t := Serve(old(con.Unread()), backend);
        && d == HandlerPolicy(t.exit)
        && (t.exit == RaisedClosed ==> !d.reraises && con.closed)
        && (t.exit != RaisedClosed ==> d.reraises && con.closed == old(con.closed))
        && n == old(n) + t.handled
        && con.outgoing == old(con.outgoing) + t.replies
    {
      var exit := HandleConn(con);
      ServeNeverReturns(old(con.Unread()), backend);
      d := HandlerPolicy(exit);
      if d.closesSocket {
        con.Close();
      }
    }
  }
}
