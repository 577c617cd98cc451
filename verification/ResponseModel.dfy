/** A response being written, as a value: the connection at the bottom and the
    layers of the middleware chain above it.

    The connection stands for net/http's own writer.  Its log is what the
    client gets, and it counts the WriteHeader calls net/http would complain
    about. */
module ResponseModel {
  import opened Decimal

  type Header = map<string, seq<string>>

  const OK: nat := 200

  datatype Event = Status(code: nat, header: Header) | Body(bytes: string) | Flushed

  datatype Connection = Connection(header: Header, wroteHeader: bool, log: seq<Event>, superfluous: nat)

  // What a recorder remembers of the response that passed through it.
  datatype Recorder = Recorder(status: nat, bytes: nat, wroteHeader: bool)

  // The timeout layer: headers staged by the handler, and two flags.
  datatype Timeout = Timeout(staged: Header, wroteHeader: bool, closed: bool)

  datatype Writer =
    | Conn(conn: Connection)
    | Recorded(rec: Recorder, under: Writer)
    | Timed(tw: Timeout, under: Writer)

  function NewConnection(header: Header): Connection {
    Connection(header, false, [], 0)
  }

  function NewRecorder(): Recorder {
    Recorder(OK, 0, false)
  }

  // --- what net/http does --------------------------------------------------

  function ConnWriteHeader(c: Connection, code: nat): Connection {
    if c.wroteHeader then c.(superfluous := c.superfluous + 1)
    else c.(wroteHeader := true, log := c.log + [Status(code, c.header)])
  }

  function ConnImplied(c: Connection): Connection {
    if c.wroteHeader then c else ConnWriteHeader(c, OK)
  }

  function ConnWrite(c: Connection, bytes: string): Connection {
    var c := ConnImplied(c);
    c.(log := c.log + [Body(bytes)])
  }

  function ConnFlush(c: Connection): Connection {
    var c := ConnImplied(c);
    c.(log := c.log + [Flushed])
  }

  // --- the writer interface, layer by layer --------------------------------

  // Which layers a writer consists of, from the top.
  datatype Layers = Bottom | RecorderOver(Layers) | TimeoutOver(Layers)

  function LayersOf(w: Writer): Layers {
    match w
    case Conn(_) => Bottom
    case Recorded(_, under) => RecorderOver(LayersOf(under))
    case Timed(_, under) => TimeoutOver(LayersOf(under))
  }

  // The header map of a writer is the one underneath, except that the timeout
  // layer has a map of its own.
  function MergeHeader(w: Writer, header: Header): (r: Writer)
    ensures LayersOf(r) == LayersOf(w)
  {
    match w
    case Conn(c) => Conn(c.(header := c.header + header))
    case Recorded(rec, under) => Recorded(rec, MergeHeader(under, header))
    case Timed(tw, under) => Timed(tw.(staged := tw.staged + header), under)
  }

  function DeleteHeader(w: Writer, name: string): (r: Writer)
    ensures LayersOf(r) == LayersOf(w)
  {
    match w
    case Conn(c) => Conn(c.(header := c.header - {name}))
    case Recorded(rec, under) => Recorded(rec, DeleteHeader(under, name))
    case Timed(tw, under) => Timed(tw.(staged := tw.staged - {name}), under)
  }

  function WriteHeader(w: Writer, code: nat): (r: Writer)
    ensures LayersOf(r) == LayersOf(w)
    decreases LayersOf(w)
  {
    match w
    case Conn(c) => Conn(ConnWriteHeader(c, code))
    case Recorded(rec, under) =>
      if rec.wroteHeader then w
      else Recorded(rec.(wroteHeader := true, status := code), WriteHeader(under, code))
    case Timed(tw, under) =>
      if tw.closed || tw.wroteHeader then w
      else Timed(tw.(wroteHeader := true), WriteHeader(MergeHeader(under, tw.staged), code))
  }

  // The body after an implicit 200; also reports how many bytes were accepted.
  function Write(w: Writer, bytes: string): (r: (Writer, nat))
    ensures LayersOf(r.0) == LayersOf(w)
    decreases LayersOf(w)
  {
    match w
    case Conn(c) => (Conn(ConnWrite(c, bytes)), |bytes|)
    case Recorded(rec, under) =>
      var (rec, under) := if rec.wroteHeader then (rec, under)
        else (rec.(wroteHeader := true, status := OK), WriteHeader(under, OK));
      var (under, n) := Write(under, bytes);
      (Recorded(rec.(bytes := rec.bytes + n), under), n)
    case Timed(tw, under) =>
      if tw.closed then (w, 0)
      else
        var under := if tw.wroteHeader then under else WriteHeader(MergeHeader(under, tw.staged), OK);
        var (under, n) := Write(under, bytes);
        (Timed(tw.(wroteHeader := true), under), n)
  }

  function Flush(w: Writer): (r: Writer)
    ensures LayersOf(r) == LayersOf(w)
    decreases LayersOf(w)
  {
    match w
    case Conn(c) => Conn(ConnFlush(c))
    case Recorded(rec, under) =>
      if rec.wroteHeader then Recorded(rec, Flush(under))
      else Recorded(rec.(wroteHeader := true, status := OK), Flush(WriteHeader(under, OK)))
    case Timed(tw, under) =>
      if tw.closed then w
      else
        var under := if tw.wroteHeader then under else WriteHeader(MergeHeader(under, tw.staged), OK);
        Timed(tw.(wroteHeader := true), Flush(under))
  }

  // --- problem documents ---------------------------------------------------

  function ProblemHeader(body: string): Header {
    map["Content-Type" := ["application/problem+json"], "Content-Length" := [Numeral(|body|)]]
  }

  // The whole of httpapi.Write, for a caller that owns the writer.
  function WriteProblem(w: Writer, code: nat, body: string): Writer {
    Write(WriteHeader(MergeHeader(w, ProblemHeader(body)), code), body).0
  }

  // --- a stack of recorders is transparent ---------------------------------

  function ConnOf(w: Writer): Connection {
    match w
    case Conn(c) => c
    case Recorded(_, under) => ConnOf(under)
    case Timed(_, under) => ConnOf(under)
  }

  // The status line the client got, or the 200 net/http supplies.
  function StatusOf(c: Connection): nat {
    if c.log != [] && c.log[0].Status? then c.log[0].code else OK
  }

  function BodyBytes(log: seq<Event>): nat {
    if log == [] then 0
    else BodyBytes(log[..|log| - 1]) + if log[|log| - 1].Body? then |log[|log| - 1].bytes| else 0
  }

  ghost predicate Sound(c: Connection) {
    && (c.wroteHeader <==> c.log != [])
    && (c.log != [] ==> c.log[0].Status?)
    && (forall i :: 0 < i < |c.log| ==> !c.log[i].Status?)
  }

  // The recorder's status, size and flag are those of the response.
  ghost predicate Shows(rec: Recorder, c: Connection) {
    && rec.wroteHeader == c.wroteHeader
    && rec.status == StatusOf(c)
    && rec.bytes == BodyBytes(c.log)
  }

  // Nothing but recorders, each of which knows what is on the wire.
  ghost predicate Aligned(w: Writer) {
    match w
    case Conn(c) => Sound(c)
    case Recorded(rec, under) =>
      Aligned(under) && Shows(rec, ConnOf(w))
    case Timed(_, _) => false
  }

  lemma {:induction false} MergeIsTransparent(w: Writer, header: Header)
    requires Aligned(w)
    ensures var c := ConnOf(w);
            var r := MergeHeader(w, header);
            Aligned(r) && ConnOf(r) == c.(header := c.header + header)
  {
    if w.Recorded? {
      MergeIsTransparent(w.under, header);
    }
  }

  lemma {:induction false} WriteHeaderIsTransparent(w: Writer, code: nat)
    requires Aligned(w)
    ensures var c, r := ConnOf(w), WriteHeader(w, code);
            && Aligned(r)
            && (!c.wroteHeader ==> ConnOf(r) == ConnWriteHeader(c, code))
            && (c.wroteHeader && w.Recorded? ==> r == w)
            && (c.wroteHeader && w.Conn? ==> r == Conn(c.(superfluous := c.superfluous + 1)))
  {
    if w.Recorded? && !w.rec.wroteHeader {
      WriteHeaderIsTransparent(w.under, code);
    }
  }

  lemma {:induction false} WriteIsTransparent(w: Writer, bytes: string)
    requires Aligned(w)
    ensures var (r, n) := Write(w, bytes);
            Aligned(r) && ConnOf(r) == ConnWrite(ConnOf(w), bytes) && n == |bytes|
    decreases LayersOf(w)
  {
    if w.Recorded? {
      var under := w.under;
      if !w.rec.wroteHeader {
        WriteHeaderIsTransparent(under, OK);
        under := WriteHeader(under, OK);
      }
      WriteIsTransparent(under, bytes);
    }
  }

  lemma {:induction false} FlushIsTransparent(w: Writer)
    requires Aligned(w)
    ensures Aligned(Flush(w)) && ConnOf(Flush(w)) == ConnFlush(ConnOf(w))
    decreases LayersOf(w)
  {
    if w.Recorded? {
      var under := w.under;
      if !w.rec.wroteHeader {
        WriteHeaderIsTransparent(under, OK);
        under := WriteHeader(under, OK);
      }
      FlushIsTransparent(under);
    }
  }

  /** A closed timeout layer accepts nothing, whatever is tried, and tells the
      handler so; an open one over a stack of recorders accepts every byte. */
  lemma WritesAccepted(w: Writer, bytes: string)
    requires w.Timed?
    ensures w.tw.closed ==> Write(w, bytes) == (w, 0) && WriteHeader(w, OK) == w && Flush(w) == w
    ensures w.tw.closed ==> forall rec :: Write(Recorded(rec, w), bytes).1 == 0
    ensures !w.tw.closed && Aligned(w.under) ==> Write(w, bytes).1 == |bytes|
  {
    if !w.tw.closed && Aligned(w.under) {
      var merged := MergeHeader(w.under, w.tw.staged);
      MergeIsTransparent(w.under, w.tw.staged);
      WriteHeaderIsTransparent(merged, OK);
      WriteIsTransparent(WriteHeader(merged, OK), bytes);
      WriteIsTransparent(w.under, bytes);
    }
  }
}
