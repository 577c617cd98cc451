/** The writers of the middleware chain as the objects they are: each updates
    its own fields and calls the writer it wraps.  Every method is proved
    against the same method of the value model.

    ResponseWriter is the interface, with its three implementations. */
module ResponseWriters {
  import opened Decimal
  import M = ResponseModel
  import TimeoutProtocol

  datatype ResponseWriter = Net(conn: Connection) | Rec(rec: Recorder) | Tw(tw: TimeoutWriter) {
    ghost function Repr(): set<object> {
      match this
      case Net(conn) => {conn}
      case Rec(rec) => rec.Repr
      case Tw(tw) => tw.Repr
    }

    ghost function Depth(): nat {
      match this
      case Net(_) => 0
      case Rec(rec) => rec.depth
      case Tw(tw) => tw.depth
    }

    ghost predicate Valid()
      reads Repr()
      decreases Depth(), 1
    {
      match this
      case Net(_) => true
      case Rec(rec) => rec in rec.Repr && rec.Valid()
      case Tw(tw) => tw in tw.Repr && tw.Valid()
    }

    ghost function Value(): M.Writer
      requires Valid()
      reads Repr()
      decreases Depth(), 1
    {
      match this
      case Net(conn) => M.Conn(conn.Value())
      case Rec(rec) => rec.Value()
      case Tw(tw) => tw.Value()
    }

    method SetHeader(name: string, values: seq<string>)
      requires Valid()
      modifies Repr()
      ensures Valid() && Value() == M.MergeHeader(old(Value()), map[name := values])
      decreases Depth(), 1
    {
      match this
      case Net(conn) => conn.SetHeader(name, values);
      case Rec(rec) => rec.SetHeader(name, values);
      case Tw(tw) => tw.SetHeader(name, values);
    }

    method WriteHeader(code: nat)
      requires Valid()
      modifies Repr()
      ensures Valid() && Value() == M.WriteHeader(old(Value()), code)
      decreases Depth(), 1
    {
      match this
      case Net(conn) => conn.WriteHeader(code);
      case Rec(rec) => rec.WriteHeader(code);
      case Tw(tw) => tw.WriteHeader(code);
    }

    method Write(bytes: string) returns (n: nat)
      requires Valid()
      modifies Repr()
      ensures Valid() && (Value(), n) == M.Write(old(Value()), bytes)
      decreases Depth(), 1
    {
      match this
      case Net(conn) => n := conn.Write(bytes);
      case Rec(rec) => n := rec.Write(bytes);
      case Tw(tw) => n := tw.Write(bytes);
    }

    method Flush()
      requires Valid()
      modifies Repr()
      ensures Valid() && Value() == M.Flush(old(Value()))
      decreases Depth(), 1
    {
      match this
      case Net(conn) => conn.Flush();
      case Rec(rec) => rec.Flush();
      case Tw(tw) => tw.Flush();
    }
  }

  /** net/http's own writer, which is not part of the repository. */
  class Connection {
    var header: M.Header
    var wroteHeader: bool
    var log: seq<M.Event>
    var superfluous: nat

    ghost function Value(): M.Connection
      reads this
    {
      M.Connection(header, wroteHeader, log, superfluous)
    }

    constructor (header: M.Header)
      ensures Value() == M.NewConnection(header)
    {
      this.header, wroteHeader, log, superfluous := header, false, [], 0;
    }

    method SetHeader(name: string, values: seq<string>)
      modifies this
      ensures Value() == old(Value()).(header := old(header) + map[name := values])
    {
      header := header[name := values];
      assert header == old(header) + map[name := values];
    }

    method WriteHeader(code: nat)
      modifies this
      ensures Value() == M.ConnWriteHeader(old(Value()), code)
    {
      if wroteHeader {
        superfluous := superfluous + 1;
      } else {
        wroteHeader, log := true, log + [M.Status(code, header)];
      }
    }

    method Write(bytes: string) returns (n: nat)
      modifies this
      ensures Value() == M.ConnWrite(old(Value()), bytes) && n == |bytes|
    {
      if !wroteHeader {
        WriteHeader(M.OK);
      }
      log := log + [M.Body(bytes)];
      n := |bytes|;
    }

    method Flush()
      modifies this
      ensures Value() == M.ConnFlush(old(Value()))
    {
      if !wroteHeader {
        WriteHeader(M.OK);
      }
      log := log + [M.Flushed];
    }
  }

  class Recorder {
    const inner: ResponseWriter
    ghost const Repr: set<object>
    ghost const depth: nat

    var status: nat
    var bytes: nat
    var wroteHeader: bool

    ghost predicate Valid()
      requires this in Repr
      reads Repr
      decreases depth, 0
    {
      inner.Repr() <= Repr && this !in inner.Repr() && inner.Depth() < depth && inner.Valid()
    }

    ghost function Value(): M.Writer
      requires this in Repr && Valid()
      reads Repr
      decreases depth, 0
    {
      M.Recorded(M.Recorder(status, bytes, wroteHeader), inner.Value())
    }

    constructor (w: ResponseWriter)
      requires w.Valid()
      ensures this in Repr && Valid() && Repr == {this} + w.Repr() && inner == w
      ensures Value() == M.Recorded(M.NewRecorder(), w.Value())
    {
      inner := w;
      status, bytes, wroteHeader := M.OK, 0, false;
      Repr := {this} + w.Repr();
      depth := w.Depth() + 1;
    }

    method SetHeader(name: string, values: seq<string>)
      requires this in Repr && Valid()
      modifies Repr
      ensures Valid() && Value() == M.MergeHeader(old(Value()), map[name := values])
      decreases depth, 0
    {
      inner.SetHeader(name, values);
    }

    /** Remembers and passes on the first status, and swallows any other. */
    method WriteHeader(code: nat)
      requires this in Repr && Valid()
      modifies Repr
      ensures Valid() && Value() == M.WriteHeader(old(Value()), code)
      decreases depth, 0
    {
      if wroteHeader {
        return;
      }
      wroteHeader := true;
      status := code;
      inner.WriteHeader(code);
    }

    method Write(b: string) returns (n: nat)
      requires this in Repr && Valid()
      modifies Repr
      ensures Valid() && (Value(), n) == M.Write(old(Value()), b)
      decreases depth, 0, 1
    {
      if !wroteHeader {
        WriteHeader(M.OK);
      }
      n := inner.Write(b);
      bytes := bytes + n;
    }

    method Flush()
      requires this in Repr && Valid()
      modifies Repr
      ensures Valid() && Value() == M.Flush(old(Value()))
      decreases depth, 0, 1
    {
      if !wroteHeader {
        WriteHeader(M.OK);
      }
      inner.Flush();
    }
  }

  class TimeoutWriter {
    const inner: ResponseWriter
    ghost const Repr: set<object>
    ghost const depth: nat

    var staged: M.Header
    var wroteHeader: bool
    var closed: bool

    ghost predicate Valid()
      requires this in Repr
      reads Repr
      decreases depth, 0
    {
      inner.Repr() <= Repr && this !in inner.Repr() && inner.Depth() < depth && inner.Valid()
    }

    ghost function Value(): M.Writer
      requires this in Repr && Valid()
      reads Repr
      decreases depth, 0
    {
      M.Timed(M.Timeout(staged, wroteHeader, closed), inner.Value())
    }

    constructor (w: ResponseWriter)
      requires w.Valid()
      ensures this in Repr && Valid() && Repr == {this} + w.Repr() && inner == w
      ensures Value() == M.Timed(M.Timeout(map[], false, false), w.Value())
    {
      inner := w;
      staged, wroteHeader, closed := map[], false, false;
      Repr := {this} + w.Repr();
      depth := w.Depth() + 1;
    }

    method SetHeader(name: string, values: seq<string>)
      requires this in Repr && Valid()
      modifies Repr
      ensures Valid() && Value() == M.MergeHeader(old(Value()), map[name := values])
      decreases depth, 0
    {
      staged := staged[name := values];
      assert staged == old(staged) + map[name := values];
    }

    // Copies what is staged over the real header map, name by name.
    method CommitHeaderLocked()
      requires this in Repr && Valid()
      modifies inner.Repr()
      ensures Valid() && inner.Value() == M.MergeHeader(old(inner.Value()), staged)
      decreases depth, 0, 0
    {
      var todo := staged.Keys;
      ghost var done: M.Header := map[];
      MergeNothing(inner.Value());
      while todo != {}
        invariant Valid()
        invariant todo <= staged.Keys && done == map k | k in staged && k !in todo :: staged[k]
        invariant inner.Value() == M.MergeHeader(old(inner.Value()), done)
        decreases |todo|
      {
        var name :| name in todo;
        todo := todo - {name};
        inner.SetHeader(name, staged[name]);
        MergeTwice(old(inner.Value()), done, map[name := staged[name]]);
        done := done + map[name := staged[name]];
      }
      assert done == staged;
    }

    method WriteHeaderLocked(code: nat)
      requires this in Repr && Valid()
      modifies Repr
      ensures Valid() && Value() == M.WriteHeader(old(Value()), code)
      decreases depth, 0, 1
    {
      if closed || wroteHeader {
        return;
      }
      wroteHeader := true;
      CommitHeaderLocked();
      inner.WriteHeader(code);
    }

    method WriteHeader(code: nat)
      requires this in Repr && Valid()
      modifies Repr
      ensures Valid() && Value() == M.WriteHeader(old(Value()), code)
      decreases depth, 0, 2
    {
      WriteHeaderLocked(code);
    }

    method Write(b: string) returns (n: nat)
      requires this in Repr && Valid()
      modifies Repr
      ensures Valid() && (Value(), n) == M.Write(old(Value()), b)
      decreases depth, 0, 2
    {
      if closed {
        return 0;
      }
      WriteHeaderLocked(M.OK);
      n := inner.Write(b);
    }

    method Flush()
      requires this in Repr && Valid()
      modifies Repr
      ensures Valid() && Value() == M.Flush(old(Value()))
      decreases depth, 0, 2
    {
      if closed {
        return;
      }
      WriteHeaderLocked(M.OK);
      inner.Flush();
    }

    /** The handler returned in time: what it staged is final. */
    method Finish()
      requires this in Repr && Valid()
      modifies Repr
      ensures Valid()
      ensures var w := old(Value());
              Value() == M.Timed(w.tw.(closed := true),
                                 if w.tw.wroteHeader then w.under else M.MergeHeader(w.under, w.tw.staged))
    {
      if !wroteHeader {
        CommitHeaderLocked();
      }
      closed := true;
    }

    /** Closes the writer and tells whether the response had been started. */
    method Stop() returns (started: bool)
      requires this in Repr && Valid()
      modifies this`closed
      ensures Valid() && Value() == M.Timed(old(Value()).tw.(closed := true), old(Value()).under)
      ensures started == old(wroteHeader)
    {
      closed := true;
      return wroteHeader;
    }
  }

  lemma {:induction false} MergeNothing(w: M.Writer)
    ensures M.MergeHeader(w, map[]) == w
  {
    match w
    case Conn(c) => assert c.header + map[] == c.header;
    case Recorded(_, under) => MergeNothing(under);
    case Timed(tw, _) => assert tw.staged + map[] == tw.staged;
  }

  lemma {:induction false} MergeTwice(w: M.Writer, a: M.Header, b: M.Header)
    ensures M.MergeHeader(M.MergeHeader(w, a), b) == M.MergeHeader(w, a + b)
  {
    match w
    case Conn(c) => assert (c.header + a) + b == c.header + (a + b);
    case Recorded(_, under) => MergeTwice(under, a, b);
    case Timed(tw, _) => assert (tw.staged + a) + b == tw.staged + (a + b);
  }

  /** httpapi.Write: the problem's headers, its status and its body. */
  method WriteProblem(w: ResponseWriter, code: nat, body: string)
    requires w.Valid()
    modifies w.Repr()
    ensures w.Valid() && w.Value() == M.WriteProblem(old(w.Value()), code, body)
  {
    w.SetHeader("Content-Type", ["application/problem+json"]);
    w.SetHeader("Content-Length", [Numeral(|body|)]);
    ghost var type_, length := map["Content-Type" := ["application/problem+json"]], map["Content-Length" := [Numeral(|body|)]];
    MergeTwice(old(w.Value()), type_, length);
    assert type_ + length == M.ProblemHeader(body);
    w.WriteHeader(code);
    var _ := w.Write(body);
  }

  /** Recover's deferred function: re-panics http.ErrAbortHandler, leaves a
      response that was started alone, and otherwise answers with INTERNAL. */
  method AfterPanic(rec: Recorder, v: TimeoutProtocol.Panic, internalBody: string) returns (repanic: bool)
    requires rec in rec.Repr && rec.Valid()
    modifies rec.Repr
    ensures rec.Valid() && repanic == v.Abort?
    ensures var w := old(rec.Value());
            rec.Value() == if v.Abort? || w.rec.wroteHeader then w else M.WriteProblem(w, 500, internalBody)
  {
    if v.Abort? {
      return true;
    }
    if !rec.wroteHeader {
      WriteProblem(Rec(rec), 500, internalBody);
    }
    return false;
  }
}
