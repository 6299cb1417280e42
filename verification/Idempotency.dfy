/** Idempotent replay of write requests, and the capped body readers behind it. */
module Idempotency {
  import opened Results

  type Bytes = seq<bv8>

  function Join(chunks: seq<Bytes>): Bytes { if chunks == [] then [] else chunks[0] + Join(chunks[1..]) }

  // ---- capped readers -----------------------------------------------------

  /** What a reader returns: the bytes read, whether the cap was exceeded, and the chunks not read yet. */
  datatype Reading = Reading(buffered: Bytes, overflowed: bool, rest: seq<Bytes>)

  function ReadResponse(done: Bytes, chunks: seq<Bytes>, cap: nat): Reading
    decreases |chunks|
  {
    if chunks == [] then Reading(done, false, [])
    else if |done + chunks[0]| > cap then Reading(done + chunks[0], true, chunks[1..])
    else ReadResponse(done + chunks[0], chunks[1..], cap)
  }

  /** The request reader checks before it takes a chunk, and skips empty ones. */
  function ReadRequest(done: Bytes, chunks: seq<Bytes>, cap: nat): Reading
    decreases |chunks|
  {
    if chunks == [] then Reading(done, false, [])
    else if chunks[0] == [] then ReadRequest(done, chunks[1..], cap)
    else if |done| + |chunks[0]| > cap then Reading(done, true, chunks[1..])
    else ReadRequest(done + chunks[0], chunks[1..], cap)
  }

  method ReadResponseBodyCapped(chunks: seq<Bytes>, cap: nat) returns (r: Reading)
    ensures r == ReadResponse([], chunks, cap)
  {
    var buffered: Bytes := [];
    for n := 0 to |chunks|
      invariant ReadResponse([], chunks, cap) == ReadResponse(buffered, chunks[n..], cap)
    {
      assert chunks[n..][0] == chunks[n] && chunks[n..][1..] == chunks[n + 1..];
      buffered := buffered + chunks[n];
      if |buffered| > cap { return Reading(buffered, true, chunks[n + 1..]); }
    }
    r := Reading(buffered, false, []);
  }

  method ReadRequestBodyCapped(chunks: seq<Bytes>, cap: nat) returns (r: Reading)
    ensures r == ReadRequest([], chunks, cap)
  {
    var buffered: Bytes := [];
    for n := 0 to |chunks|
      invariant ReadRequest([], chunks, cap) == ReadRequest(buffered, chunks[n..], cap)
    {
      assert chunks[n..][0] == chunks[n] && chunks[n..][1..] == chunks[n + 1..];
      if chunks[n] == [] { continue; }
      if |buffered| + |chunks[n]| > cap { return Reading(buffered, true, chunks[n + 1..]); }
      buffered := buffered + chunks[n];
    }
    r := Reading(buffered, false, []);
  }

  // ---- reading conserves the body -----------------------------------------

  /** The response reader overflows exactly when the whole body exceeds the cap, and what it read followed by
      what it left is the whole body, however it is chunked. */
  lemma {:induction false} ReadResponseIs(done: Bytes, chunks: seq<Bytes>, cap: nat)
    ensures var r := ReadResponse(done, chunks, cap);
            && r.buffered + Join(r.rest) == done + Join(chunks)
            && (|done| <= cap ==> (r.overflowed <==> |done + Join(chunks)| > cap))
            && (!r.overflowed ==> r.rest == [])
    decreases |chunks|
  {
    if chunks == [] {
      assert done + [] == done;
    } else {
      var next := done + chunks[0];
      assert next + Join(chunks[1..]) == done + Join(chunks);
      if |next| <= cap { ReadResponseIs(next, chunks[1..], cap); }
    }
  }

  /** The request reader overflows exactly when the whole body exceeds the cap, never holds more than the cap,
      and holds the whole body otherwise. */
  lemma {:induction false} ReadRequestIs(done: Bytes, chunks: seq<Bytes>, cap: nat)
    requires |done| <= cap
    ensures var r := ReadRequest(done, chunks, cap);
            && (r.overflowed <==> |done + Join(chunks)| > cap)
            && |r.buffered| <= cap
            && (!r.overflowed ==> r.buffered == done + Join(chunks))
    decreases |chunks|
  {
    if chunks == [] {
      assert done + [] == done;
    } else {
      assert done + chunks[0] + Join(chunks[1..]) == done + Join(chunks);
      if chunks[0] == [] {
        assert done + chunks[0] == done;
        ReadRequestIs(done, chunks[1..], cap);
      } else if |done| + |chunks[0]| <= cap {
        ReadRequestIs(done + chunks[0], chunks[1..], cap);
      }
    }
  }

  // ---- the middleware -----------------------------------------------------

  /** A request as the middleware sees it: user is the authenticated one, declared the Content-Length when it is
      a number, streamed whether the content type is multipart or binary, started and finished the clock before
      and after the handler. */
  datatype Request = Request(
    user: Option<string>, key: string, method_: string, path: string, declared: Option<nat>, streamed: bool,
    chunks: seq<Bytes>, started: int, finished: int)

  /** What the handler would answer. */
  datatype Response = Response(status: int, chunks: seq<Bytes>)

  /** What json.loads and storing make of a body. Two outcomes raise an error that nothing catches: bytes that are
      not text, and JSON that the database refuses. */
  datatype Parse<+C> = Json(content: C) | NotJson | NotText | Unstorable

  /** parse is json.loads and the check of the database, hash the digest of a body. */
  datatype Settings<!C> = Settings(maxBody: nat, maxResponse: nat, hash: Bytes -> string, parse: Bytes -> Parse<C>, null_: C)

  datatype Record<+C> = Record(hash: string, status: int, content: C, expires: int)

  type Key = (string, string, string)

  type Store<+C> = map<Key, Record<C>>

  /** What the client gets, and whether the handler ran; Lost when its response went down with an error. */
  datatype Answer<+C> =
    | TooLarge
    | Conflict
    | Replay(content: C)
    | Handled(status: int, body: Bytes)
    | Lost

  const DAY := 86400

  predicate IsWrite(m: string) { m in {"POST", "PUT", "PATCH", "DELETE"} }

  /** Only keyed write requests of known users are covered. */
  predicate Covered(q: Request) { q.user.Some? && q.key != "" && IsWrite(q.method_) }

  function KeyOf(q: Request): Key
    requires q.user.Some?
  {
    (q.user.value + ":" + q.key, q.method_, q.path)
  }

  predicate Refused<C>(q: Request, cfg: Settings<C>) {
    (q.declared.Some? && q.declared.value > cfg.maxBody) || q.streamed || ReadRequest([], q.chunks, cfg.maxBody).overflowed
  }

  /** Looking a record up drops it when it has expired. */
  function Dropped<C>(store: Store<C>, k: Key, now: int): Store<C> {
    if k in store && store[k].expires <= now then store - {k} else store
  }

  /** What becomes of a response: kept to be replayed, passed on, or lost to an error. */
  datatype Fate<+C> = Kept(content: C) | PassedOn | Raised

  function Parsed<C>(body: Bytes, cfg: Settings<C>): Fate<C> {
    match cfg.parse(body)
    case Json(content) => Kept(content)
    case NotJson => PassedOn
    case NotText => Raised
    case Unstorable => Raised
  }

  function Content<C>(r: Response, cfg: Settings<C>): Fate<C> {
    if !(200 <= r.status < 300) then PassedOn
    else
      var reading := ReadResponse([], r.chunks, cfg.maxResponse);
      if reading.overflowed then PassedOn else if reading.buffered == [] then Kept(cfg.null_) else Parsed(reading.buffered, cfg)
  }

  /** The record a handled response leaves. */
  function Recorded<C>(body: Bytes, r: Response, finished: int, cfg: Settings<C>): Option<Record<C>> {
    var content := Content(r, cfg);
    if content.Kept? then Some(Record(cfg.hash(body), r.status, content.content, finished + DAY)) else None
  }

  /** One request: the new store and the answer. */
  function Serve<C>(store: Store<C>, q: Request, r: Response, cfg: Settings<C>): (Store<C>, Answer<C>) {
    if !Covered(q) then (store, Handled(r.status, Join(r.chunks)))
    else if Refused(q, cfg) then (store, TooLarge)
    else
      var k := KeyOf(q);
      var body := ReadRequest([], q.chunks, cfg.maxBody).buffered;
      var s := Dropped(store, k, q.started);
      if k in s then
        (s, if s[k].hash != cfg.hash(body) then Conflict else Replay(s[k].content))
      else
        var rec := Recorded(body, r, q.finished, cfg);
        (if rec.Some? then s[k := rec.value] else s, if Content(r, cfg).Raised? then Lost else Handled(r.status, Join(r.chunks)))
  }

  class Middleware<!C> {
    var store: Store<C>
    const cfg: Settings<C>

    constructor (cfg: Settings<C>)
      ensures this.cfg == cfg && store == map[]
    {
      this.cfg := cfg;
      store := map[];
    }

    /** store.get. */
    method Lookup(k: Key, now: int) returns (rec: Option<Record<C>>)
      modifies this
      ensures store == Dropped(old(store), k, now)
      ensures rec == if k in store then Some(store[k]) else None
    {
      if k !in store { return None; }
      if store[k].expires <= now {
        store := store - {k};
        return None;
      }
      rec := Some(store[k]);
    }

    method Handle(q: Request, r: Response) returns (answer: Answer<C>)
      modifies this
      ensures (store, answer) == Serve(old(store), q, r, cfg)
    {
      if !Covered(q) { return Handled(r.status, Join(r.chunks)); }
      if (q.declared.Some? && q.declared.value > cfg.maxBody) || q.streamed { return TooLarge; }
      var body := ReadRequestBodyCapped(q.chunks, cfg.maxBody);
      if body.overflowed { return TooLarge; }
      var hash := cfg.hash(body.buffered);
      var existing := Lookup(KeyOf(q), q.started);
      if existing.Some? {
        return if existing.value.hash != hash then Conflict else Replay(existing.value.content);
      }
      var content, whole := Answered(r);
      if content.Raised? { return Lost; }
      if content.Kept? { store := store[KeyOf(q) := Record(hash, r.status, content.content, q.finished + DAY)]; }
      answer := Handled(r.status, whole);
    }

    /** The handler's response, passed on whole unless reading it raises; a success is buffered up to the cap to be replayed. */
    method Answered(r: Response) returns (content: Fate<C>, whole: Bytes)
      ensures content == Content(r, cfg) && whole == Join(r.chunks)
    {
      if !(200 <= r.status < 300) { return PassedOn, Join(r.chunks); }
      var reading := ReadResponseBodyCapped(r.chunks, cfg.maxResponse);
      ReadResponseIs([], r.chunks, cfg.maxResponse);
      assert [] + Join(r.chunks) == Join(r.chunks) && reading.buffered + [] == reading.buffered;
      if reading.overflowed {
        // the prefix already read, then the rest as it comes
        return PassedOn, reading.buffered + Join(reading.rest);
      }
      content := if reading.buffered == [] then Kept(cfg.null_) else Parsed(reading.buffered, cfg);
      whole := reading.buffered;
    }
  }
}
