/** A stored response answers for its key until it expires. */
module IdempotencyLaws {
  import opened Results
  import opened Idempotency

  /** A request and what the handler would answer to it. */
  datatype Exchange = Exchange(q: Request, r: Response)

  function Run<C>(store: Store<C>, xs: seq<Exchange>, cfg: Settings<C>): Store<C> {
    if xs == [] then store
    else
      var x := xs[|xs| - 1];
      Serve(Run(store, xs[..|xs| - 1], cfg), x.q, x.r, cfg).0
  }

  /** Nothing but running the handler for k writes under k, and only expiry removes it. */
  lemma {:induction false} ServeKeeps<C>(store: Store<C>, q: Request, r: Response, cfg: Settings<C>, k: Key)
    requires k in store && q.started < store[k].expires
    ensures var s := Serve(store, q, r, cfg).0; k in s && s[k] == store[k]
  {
  }

  /** A record survives every request that starts before it expires. */
  lemma {:induction false} RunKeeps<C>(store: Store<C>, xs: seq<Exchange>, cfg: Settings<C>, k: Key)
    requires k in store && forall x <- xs :: x.q.started < store[k].expires
    ensures var s := Run(store, xs, cfg); k in s && s[k] == store[k]
  {
    if xs != [] {
      var front, x := xs[..|xs| - 1], xs[|xs| - 1];
      RunKeeps(store, front, cfg, k);
      ServeKeeps(Run(store, front, cfg), x.q, x.r, cfg, k);
    }
  }

  function BodyOf<C>(q: Request, cfg: Settings<C>): Bytes { ReadRequest([], q.chunks, cfg.maxBody).buffered }

  /** The handler ran for q with an answer that can be replayed. */
  predicate Stores<C>(store: Store<C>, x: Exchange, cfg: Settings<C>) {
    && Covered(x.q) && !Refused(x.q, cfg) && KeyOf(x.q) !in Dropped(store, KeyOf(x.q), x.q.started)
    && Recorded(BodyOf(x.q, cfg), x.r, x.q.finished, cfg).Some?
  }

  /** A response can be replayed exactly when it is a success whose body fits the cap and is empty or JSON that
      can be stored. */
  lemma {:induction false} ReplayableExactly<C>(body: Bytes, r: Response, finished: int, cfg: Settings<C>)
    ensures Recorded(body, r, finished, cfg).Some? <==>
            && 200 <= r.status < 300 && |Join(r.chunks)| <= cfg.maxResponse
            && (Join(r.chunks) == [] || cfg.parse(Join(r.chunks)).Json?)
    ensures Recorded(body, r, finished, cfg).Some? ==>
            Recorded(body, r, finished, cfg).value ==
            Record(cfg.hash(body), r.status, if Join(r.chunks) == [] then cfg.null_ else cfg.parse(Join(r.chunks)).content, finished + DAY)
  {
    ReadResponseIs([], r.chunks, cfg.maxResponse);
    assert [] + Join(r.chunks) == Join(r.chunks);
    var reading := ReadResponse([], r.chunks, cfg.maxResponse);
    assert reading.buffered + [] == reading.buffered;
  }

  lemma {:induction false} StoredRecord<C>(store: Store<C>, x: Exchange, cfg: Settings<C>)
    requires Stores(store, x, cfg)
    ensures var s, k := Serve(store, x.q, x.r, cfg).0, KeyOf(x.q);
            k in s && s[k] == Recorded(BodyOf(x.q, cfg), x.r, x.q.finished, cfg).value
            && s[k].expires == x.q.finished + DAY && s[k].hash == cfg.hash(BodyOf(x.q, cfg))
  {
    ReplayableExactly(BodyOf(x.q, cfg), x.r, x.q.finished, cfg);
  }

  lemma {:induction false} StoredRecordAnswers<C>(store: Store<C>, first: Exchange, between: seq<Exchange>, again: Exchange, cfg: Settings<C>)
    requires Stores(store, first, cfg) && Covered(again.q) && KeyOf(again.q) == KeyOf(first.q)
    requires forall x <- between :: x.q.started < first.q.finished + DAY
    requires again.q.started < first.q.finished + DAY
    ensures var s := Run(Serve(store, first.q, first.r, cfg).0, between, cfg);
            var rec := Recorded(BodyOf(first.q, cfg), first.r, first.q.finished, cfg).value;
            Serve(s, again.q, again.r, cfg) ==
              (s, if Refused(again.q, cfg) then TooLarge
                  else if cfg.hash(BodyOf(again.q, cfg)) == cfg.hash(BodyOf(first.q, cfg)) then Replay(rec.content)
                  else Conflict)
  {
    var after := Serve(store, first.q, first.r, cfg).0;
    var k := KeyOf(first.q);
    StoredRecord(store, first, cfg);
    RunKeeps(after, between, cfg, k);
  }

  predicate Ran<C>(a: Answer<C>) { a.Handled? || a.Lost? }

  /** Small enough, by declaration and in fact, and not streamed. */
  predicate Acceptable<C>(q: Request, cfg: Settings<C>) {
    |Join(q.chunks)| <= cfg.maxBody && !q.streamed && !(q.declared.Some? && q.declared.value > cfg.maxBody)
  }

  /** No live record answers for the request. */
  predicate Unanswered<C>(store: Store<C>, q: Request)
    requires q.user.Some?
  {
    KeyOf(q) in store ==> store[KeyOf(q)].expires <= q.started
  }

  /** A success with a body within the cap that is not text, or is JSON that cannot be stored. */
  predicate Unusable<C>(r: Response, cfg: Settings<C>) {
    200 <= r.status < 300 && 0 < |Join(r.chunks)| <= cfg.maxResponse
    && (cfg.parse(Join(r.chunks)).NotText? || cfg.parse(Join(r.chunks)).Unstorable?)
  }

  lemma {:induction false} RaisedExactly<C>(r: Response, cfg: Settings<C>)
    ensures Content(r, cfg).Raised? <==> Unusable(r, cfg)
  {
    ReadResponseIs([], r.chunks, cfg.maxResponse);
    assert [] + Join(r.chunks) == Join(r.chunks);
    var reading := ReadResponse([], r.chunks, cfg.maxResponse);
    assert reading.buffered + [] == reading.buffered;
  }

  /** The handler runs for a covered request exactly when it is acceptable and no live record answers. */
  lemma {:induction false} HandlerRunsExactly<C>(store: Store<C>, x: Exchange, cfg: Settings<C>)
    ensures Ran(Serve(store, x.q, x.r, cfg).1) <==> (Covered(x.q) ==> Acceptable(x.q, cfg) && Unanswered(store, x.q))
  {
    ReadRequestIs([], x.q.chunks, cfg.maxBody);
    assert [] + Join(x.q.chunks) == Join(x.q.chunks);
  }

  /** The handler's response reaches the client whole whenever the handler ran, whatever was cached, except that
      the middleware raises over a covered success that it cannot decode or store; then nothing is stored under its key. */
  lemma {:induction false} HandlerAnswersWholeExactly<C>(store: Store<C>, x: Exchange, cfg: Settings<C>)
    ensures var a := Serve(store, x.q, x.r, cfg).1;
            Ran(a) ==> (a == Handled(x.r.status, Join(x.r.chunks)) <==> !(Covered(x.q) && Unusable(x.r, cfg)))
    ensures var (s, a) := Serve(store, x.q, x.r, cfg);
            Ran(a) && Covered(x.q) && Unusable(x.r, cfg) ==> a.Lost? && s == store - {KeyOf(x.q)}
  {
    RaisedExactly(x.r, cfg);
  }

  /** So a client that tries such a request again runs the handler again. */
  lemma {:induction false} LostRunsAgain<C>(store: Store<C>, x: Exchange, again: Exchange, cfg: Settings<C>)
    requires Serve(store, x.q, x.r, cfg).1.Lost?
    requires Covered(again.q) && Acceptable(again.q, cfg) && KeyOf(again.q) == KeyOf(x.q)
    ensures Ran(Serve(Serve(store, x.q, x.r, cfg).0, again.q, again.r, cfg).1)
  {
    HandlerRunsExactly(Serve(store, x.q, x.r, cfg).0, again, cfg);
  }

  /** Handler runs for one key in a history. */
  function Runs<C>(store: Store<C>, xs: seq<Exchange>, cfg: Settings<C>, k: Key): nat {
    if xs == [] then 0
    else
      var x := xs[|xs| - 1];
      Runs(store, xs[..|xs| - 1], cfg, k)
      + if Covered(x.q) && KeyOf(x.q) == k && Ran(Serve(Run(store, xs[..|xs| - 1], cfg), x.q, x.r, cfg).1) then 1 else 0
  }

  /** Within a day of the first replayable response the handler never runs again for its key. */
  lemma {:induction false} NeverRunsAgain<C>(store: Store<C>, xs: seq<Exchange>, cfg: Settings<C>, k: Key)
    requires k in store && forall x <- xs :: x.q.started < store[k].expires
    ensures Runs(store, xs, cfg, k) == 0
  {
    if xs != [] {
      var front, x := xs[..|xs| - 1], xs[|xs| - 1];
      NeverRunsAgain(store, front, cfg, k);
      RunKeeps(store, front, cfg, k);
      HandlerRunsExactly(Run(store, front, cfg), x, cfg);
      assert x in xs;
    }
  }

  // ---- who a record answers -----------------------------------------------

  /** Two covered requests go by the same name: one user and key, or two that read the same with a colon between them,
      for one method and path. */
  predicate SameName(a: Request, b: Request)
    requires a.user.Some? && b.user.Some?
  {
    && a.method_ == b.method_ && a.path == b.path
    && ((a.user == b.user && a.key == b.key)
        || (a.user != b.user && (':' in a.user.value || ':' in b.user.value) && a.user.value + ":" + a.key == b.user.value + ":" + b.key))
  }

  lemma {:induction false} ColonAt(user: string, key: string)
    ensures (user + ":" + key)[|user|] == ':' && (user + ":" + key)[..|user|] == user && (user + ":" + key)[|user| + 1..] == key
  {
  }

  lemma {:induction false} ShorterUser(u: string, k: string, v: string, l: string)
    requires u + ":" + k == v + ":" + l && |u| < |v|
    ensures ':' in v
  {
    ColonAt(u, k);
    ColonAt(v, l);
    assert v[|u|] == (v + ":" + l)[|u|] == ':';
  }

  lemma {:induction false} NamesExactly(a: Request, b: Request)
    requires a.user.Some? && b.user.Some?
    ensures KeyOf(a) == KeyOf(b) <==> SameName(a, b)
  {
    var u, v := a.user.value, b.user.value;
    ColonAt(u, a.key);
    ColonAt(v, b.key);
    if u + ":" + a.key == v + ":" + b.key {
      if |u| < |v| { ShorterUser(u, a.key, v, b.key); }
      else if |v| < |u| { ShorterUser(v, b.key, u, a.key); }
    }
  }

  lemma {:induction false} StoreFrom<C>(xs: seq<Exchange>, cfg: Settings<C>, k: Key)
    requires k in Run(map[], xs, cfg)
    ensures exists x <- xs :: Covered(x.q) && KeyOf(x.q) == k
  {
    var front, x := xs[..|xs| - 1], xs[|xs| - 1];
    assert x in xs && forall y <- front :: y in xs;
    if k in Run(map[], front, cfg) { StoreFrom(front, cfg, k); }
  }

  /** In any history that starts with an empty store, an acceptable request runs the handler when no covered request
      before it went by the same name. */
  lemma {:induction false} NewNameRuns<C>(xs: seq<Exchange>, x: Exchange, cfg: Settings<C>)
    requires Covered(x.q) && Acceptable(x.q, cfg) && forall y <- xs :: Covered(y.q) ==> !SameName(y.q, x.q)
    ensures Ran(Serve(Run(map[], xs, cfg), x.q, x.r, cfg).1)
  {
    if KeyOf(x.q) in Run(map[], xs, cfg) {
      StoreFrom(xs, cfg, KeyOf(x.q));
      var y :| y in xs && Covered(y.q) && KeyOf(y.q) == KeyOf(x.q);
      NamesExactly(y.q, x.q);
    }
    HandlerRunsExactly(Run(map[], xs, cfg), x, cfg);
  }

  /** A request never answers one that goes by another name: it is answered as if the first had not been made. */
  lemma {:induction false} OtherNameNeverAnswers<C>(store: Store<C>, first: Exchange, again: Exchange, cfg: Settings<C>)
    requires Covered(first.q) && Covered(again.q) && !SameName(first.q, again.q)
    ensures Serve(Serve(store, first.q, first.r, cfg).0, again.q, again.r, cfg).1 == Serve(store, again.q, again.r, cfg).1
  {
    NamesExactly(first.q, again.q);
  }

  /** Two users whose names and keys read the same share a record: what the first got answers the second. */
  lemma {:induction false} UsersCanShareNames(a: Request, b: Request)
    requires a.user == Some("a:b") && a.key == "c" && b.user == Some("a") && b.key == "b:c"
    requires a.method_ == b.method_ && a.path == b.path
    ensures SameName(a, b) && a.user != b.user
  {
    assert "a:b" + ":" + "c" == "a" + ":" + "b:c";
    assert "a:b"[1] == ':';
  }

  /** A success whose body fits the cap and is empty or JSON that can be stored. */
  predicate Keepable<C>(r: Response, cfg: Settings<C>) {
    200 <= r.status < 300 && |Join(r.chunks)| <= cfg.maxResponse && (Join(r.chunks) == [] || cfg.parse(Join(r.chunks)).Json?)
  }

  lemma {:induction false} WholeRequest<C>(q: Request, cfg: Settings<C>)
    ensures Refused(q, cfg) <==> !Acceptable(q, cfg)
    ensures Acceptable(q, cfg) ==> BodyOf(q, cfg) == Join(q.chunks)
  {
    ReadRequestIs([], q.chunks, cfg.maxBody);
    assert [] + Join(q.chunks) == Join(q.chunks);
  }

  /** Once the handler ran for a covered request with such a response, no later request that goes by the same name, such
      as one of the same user with the same key, method and path, runs it within a day: an acceptable one gets the stored content when its body has the same
      hash, and a conflict when it has not, whatever else happens in between and whatever its own handler would say. */
  lemma {:induction false} StoredResponseAnswers<C>(store: Store<C>, first: Exchange, between: seq<Exchange>, again: Exchange, cfg: Settings<C>)
    requires Covered(first.q) && Ran(Serve(store, first.q, first.r, cfg).1) && Keepable(first.r, cfg)
    requires Covered(again.q) && SameName(first.q, again.q)
    requires forall x <- between :: x.q.started < first.q.finished + 86400
    requires again.q.started < first.q.finished + 86400
    ensures var s := Run(Serve(store, first.q, first.r, cfg).0, between, cfg);
            var body := Join(first.r.chunks);
            Serve(s, again.q, again.r, cfg) ==
              (s, if !Acceptable(again.q, cfg) then TooLarge
                  else if cfg.hash(Join(again.q.chunks)) == cfg.hash(Join(first.q.chunks)) then
                    Replay(if body == [] then cfg.null_ else cfg.parse(body).content)
                  else Conflict)
  {
    NamesExactly(first.q, again.q);
    HandlerRunsExactly(store, first, cfg);
    ReplayableExactly(BodyOf(first.q, cfg), first.r, first.q.finished, cfg);
    WholeRequest(first.q, cfg);
    WholeRequest(again.q, cfg);
    StoredRecordAnswers(store, first, between, again, cfg);
  }

  /** A day after the handler was done its response is forgotten: an acceptable request of that name runs it again. */
  lemma {:induction false} ForgottenAfterADay<C>(store: Store<C>, first: Exchange, again: Exchange, cfg: Settings<C>)
    requires Covered(first.q) && Ran(Serve(store, first.q, first.r, cfg).1) && Keepable(first.r, cfg)
    requires Covered(again.q) && SameName(first.q, again.q) && Acceptable(again.q, cfg) && again.q.started >= first.q.finished + 86400
    ensures Ran(Serve(Serve(store, first.q, first.r, cfg).0, again.q, again.r, cfg).1)
  {
    NamesExactly(first.q, again.q);
    HandlerRunsExactly(store, first, cfg);
    ReplayableExactly(BodyOf(first.q, cfg), first.r, first.q.finished, cfg);
    WholeRequest(first.q, cfg);
    StoredRecord(store, first, cfg);
    HandlerRunsExactly(Serve(store, first.q, first.r, cfg).0, again, cfg);
  }

  /** A request without a user or a key, or that writes nothing, goes to the handler, and nothing is remembered. */
  lemma {:induction false} OthersPassThrough<C>(store: Store<C>, x: Exchange, cfg: Settings<C>)
    requires x.q.user.None? || x.q.key == "" || x.q.method_ !in {"POST", "PUT", "PATCH", "DELETE"}
    ensures Serve(store, x.q, x.r, cfg) == (store, Handled(x.r.status, Join(x.r.chunks)))
  {
  }

  /** Any other is turned away exactly when it is declared or found too large, or is streamed. */
  lemma {:induction false} TurnedAwayExactly<C>(store: Store<C>, x: Exchange, cfg: Settings<C>)
    requires x.q.user.Some? && x.q.key != "" && x.q.method_ in {"POST", "PUT", "PATCH", "DELETE"}
    ensures Serve(store, x.q, x.r, cfg).1.TooLarge? <==>
            x.q.streamed || |Join(x.q.chunks)| > cfg.maxBody || (x.q.declared.Some? && x.q.declared.value > cfg.maxBody)
    ensures Serve(store, x.q, x.r, cfg).1.TooLarge? ==> Serve(store, x.q, x.r, cfg).0 == store
  {
    WholeRequest(x.q, cfg);
  }
}
