/** The account-check job: which proxy an attempt uses, and which accounts the two retry loops run again. */
module RetryEngine {
  import opened Options
  import opened Strings

  // ---- Proxies ---------------------------------------------------------------------------

  /** makeProxyHostPort: the part of a proxy string that its dead mark is filed under. */
  function HostPortOf(raw: string): Option<string> {
    var t := Trim(raw);
    if t == "" then None
    else
      var i := IndexOf(t, "://");
      var rest := if i != -1 then t[i + 3..] else t;
      var bare := if i != -1 then rest[LastIndexOf(rest, '@') + 1..] else rest;
      var parts := Split(bare, ':');
      if |parts| < 2 then None else Some(parts[0] + ":" + parts[1])
  }

  /** The test against a snapshot of dead marks, taken when the job starts. */
  function DeadIn(marks: set<string>): string -> bool {
    p => HostPortOf(p).Some? && HostPortOf(p).value in marks
  }

  function WithCredentials(scheme: string, creds: string, hp: string): string { scheme + ("://" + (creds + hp)) }

  lemma TwoParts(host: string, port: string)
    requires ':' !in host && ':' !in port
    ensures Split(host + ":" + port, ':') == [host, port]
  {
    assert host + ":" + port == host + [':'] + port;
    SplitFirst(host, port, ':');
    SplitWhole(port, ':');
  }

  /** A dead mark is filed under host and port: scheme and credentials play no part. */
  lemma DeadMarkIsShared(scheme: string, creds: string, host: string, port: string)
    requires ':' !in scheme && ':' !in host && ':' !in port && '@' !in host && '@' !in port
    requires creds == "" || creds[|creds| - 1] == '@'
    requires var t := WithCredentials(scheme, creds, host + ":" + port); Trim(t) == t
    ensures HostPortOf(WithCredentials(scheme, creds, host + ":" + port)) == Some(host + ":" + port)
  {
    var hp := host + ":" + port;
    MarkIsFirst(scheme, creds + hp);
    BareHost(creds, hp);
    TwoParts(host, port);
    BareOfUrl(WithCredentials(scheme, creds, hp), scheme, creds + hp);
  }

  /** The form without a scheme and with credentials at the end has the same key, whatever colons the
      credentials hold. */
  lemma ColonFormIsShared(host: string, port: string, creds: string)
    requires ':' !in host && ':' !in port
    requires var t := host + ":" + port + creds; Trim(t) == t && IndexOf(t, "://") == -1
    requires creds == "" || creds[0] == ':'
    ensures HostPortOf(host + ":" + port + creds) == Some(host + ":" + port)
  {
    var t := host + ":" + port + creds;
    if creds == "" {
      assert t == host + ":" + port;
      TwoParts(host, port);
    } else {
      assert t == host + [':'] + (port + [':'] + creds[1..]);
      SplitFirst(host, port + [':'] + creds[1..], ':');
      SplitFirst(port, creds[1..], ':');
      assert Split(t, ':')[0] == host && Split(t, ':')[1] == port;
    }
  }

  lemma BareOfUrl(t: string, scheme: string, rest: string)
    requires t == scheme + ("://" + rest) && Trim(t) == t && IndexOf(t, "://") == |scheme|
    ensures var parts := Split(rest[LastIndexOf(rest, '@') + 1..], ':');
            HostPortOf(t) == if |parts| < 2 then None else Some(parts[0] + ":" + parts[1])
  {
    assert t[|scheme| + 3..] == rest;
  }

  lemma MarkIsFirst(scheme: string, rest: string)
    requires ':' !in scheme
    ensures IndexOf(scheme + ("://" + rest), "://") == |scheme|
  {
    var t := scheme + ("://" + rest);
    IndexOfFinds(t, "://");
    assert t[|scheme|..|scheme| + 3] == "://";
    assert OccursAt(t, "://", |scheme|);
    forall i | 0 <= i < |scheme| ensures !OccursAt(t, "://", i) {
      assert t[i] == scheme[i];
      if i + 3 <= |t| { assert t[i..i + 3][0] == t[i]; }
    }
  }

  lemma BareHost(creds: string, hp: string)
    requires '@' !in hp && (creds == "" || creds[|creds| - 1] == '@')
    ensures (creds + hp)[LastIndexOf(creds + hp, '@') + 1..] == hp
  {
    if creds == "" {
      assert creds + hp == hp;
      AbsentHasNoLast(hp, '@');
    } else {
      assert creds + hp == creds[..|creds| - 1] + ['@'] + hp;
      LastIndexAt(creds[..|creds| - 1], '@', hp);
    }
  }

  /** `dead` tells whether a proxy is marked dead; `start` is the first index for an account. */
  datatype Config = Config(proxies: seq<string>, dead: string -> bool, jobProxy: Option<string>, requireProxy: bool,
                           start: nat -> nat)

  predicate Healthy(cfg: Config, failed: set<string>, p: string) {
    p != "" && p !in failed && !cfg.dead(p)
  }

  /** The `k`-th proxy in circular order from `idx`. */
  function At(cfg: Config, idx: nat, k: nat): string
    requires cfg.proxies != []
  {
    cfg.proxies[(idx + k) % |cfg.proxies|]
  }

  datatype Pick = Use(proxy: Option<string>) | Abort

  /** What is left when no proxy of the pool will do. */
  function Fallback(cfg: Config): Pick {
    if cfg.proxies == [] && cfg.jobProxy.Some? && cfg.jobProxy.value != "" then Use(cfg.jobProxy)
    else if cfg.requireProxy then Abort
    else Use(None)
  }

  function PickFrom(cfg: Config, failed: set<string>, idx: nat, k: nat): Pick
    requires k <= |cfg.proxies|
    decreases |cfg.proxies| - k
  {
    if k == |cfg.proxies| then Fallback(cfg)
    else if Healthy(cfg, failed, At(cfg, idx, k)) then Use(Some(At(cfg, idx, k)))
    else PickFrom(cfg, failed, idx, k + 1)
  }

  function PickProxy(cfg: Config, failed: set<string>, idx: nat): Pick { PickFrom(cfg, failed, idx, 0) }

  /** The `k`-th proxy is healthy and none before it is. */
  ghost predicate FirstHealthy(cfg: Config, failed: set<string>, idx: nat, k: nat) {
    && k < |cfg.proxies| && Healthy(cfg, failed, At(cfg, idx, k))
    && forall j: nat :: j < k ==> !Healthy(cfg, failed, At(cfg, idx, j))
  }

  /** The pick is the first healthy proxy in circular order from `idx`; if there is none anywhere in the
      pool, the job's own proxy when there is no pool at all, else the bare address or, when proxies are
      required, nothing. */
  ghost predicate RightPick(cfg: Config, failed: set<string>, idx: nat, r: Pick) {
    || (exists k: nat :: FirstHealthy(cfg, failed, idx, k) && r == Use(Some(At(cfg, idx, k))))
    || ((forall p <- cfg.proxies :: !Healthy(cfg, failed, p)) && r == Fallback(cfg))
  }

  lemma MultiplesApart(n: nat, d: int)
    ensures d >= 1 ==> n * d >= n
    ensures d <= -1 ==> n * d <= 0 - n
  {
    if d >= 1 { assert n * (d - 1) >= 0; assert n * d == n * (d - 1) + n; }
    if d <= -1 { assert n * (-d - 1) >= 0; assert n * d == -(n * (-d - 1)) - n; }
  }

  lemma ModOf(x: nat, n: nat, q: int, m: nat)
    requires m < n && x == n * q + m
    ensures x % n == m
  {
    var d := x / n - q;
    assert x == n * (x / n) + x % n;
    assert n * (x / n) - n * q == n * d;
    MultiplesApart(n, d);
  }

  /** Every proxy of the pool has its turn. */
  lemma WrapsAround(idx: nat, n: nat, m: nat) returns (k: nat)
    requires m < n
    ensures k < n && (idx + k) % n == m
  {
    var at := idx % n;
    var q := idx / n;
    assert idx == n * q + at;
    if m >= at {
      k := m - at;
      ModOf(idx + k, n, q, m);
    } else {
      k := m + n - at;
      assert n * (q + 1) == n * q + n;
      ModOf(idx + k, n, q + 1, m);
    }
  }

  lemma NoneHealthy(cfg: Config, failed: set<string>, idx: nat, p: string)
    requires forall j: nat :: j < |cfg.proxies| ==> !Healthy(cfg, failed, At(cfg, idx, j))
    requires p in cfg.proxies
    ensures !Healthy(cfg, failed, p)
  {
    var m :| 0 <= m < |cfg.proxies| && cfg.proxies[m] == p;
    var j := WrapsAround(idx, |cfg.proxies|, m);
    assert !Healthy(cfg, failed, At(cfg, idx, j));
  }

  lemma {:induction false} PickFromIsRight(cfg: Config, failed: set<string>, idx: nat, k: nat)
    requires k <= |cfg.proxies|
    requires forall j: nat :: j < k ==> !Healthy(cfg, failed, At(cfg, idx, j))
    ensures RightPick(cfg, failed, idx, PickFrom(cfg, failed, idx, k))
    decreases |cfg.proxies| - k
  {
    if k == |cfg.proxies| {
      forall p | p in cfg.proxies ensures !Healthy(cfg, failed, p) { NoneHealthy(cfg, failed, idx, p); }
    } else if Healthy(cfg, failed, At(cfg, idx, k)) {
      assert FirstHealthy(cfg, failed, idx, k);
    } else {
      PickFromIsRight(cfg, failed, idx, k + 1);
    }
  }

  lemma PickIsRight(cfg: Config, failed: set<string>, idx: nat)
    ensures RightPick(cfg, failed, idx, PickProxy(cfg, failed, idx))
  {
    PickFromIsRight(cfg, failed, idx, 0);
  }

  /** With proxies required and a pool configured, an attempt uses a healthy proxy of the pool or the job
      aborts, and it aborts exactly if the pool has no healthy proxy left. */
  lemma NeverBareAddress(cfg: Config, failed: set<string>, idx: nat)
    requires cfg.requireProxy && cfg.proxies != []
    ensures var r := PickProxy(cfg, failed, idx);
      && (r == Abort <==> forall p <- cfg.proxies :: p == "" || p in failed || cfg.dead(p))
      && (r.Use? ==> r.proxy.Some? && r.proxy.value in cfg.proxies
                     && r.proxy.value != "" && r.proxy.value !in failed && !cfg.dead(r.proxy.value))
  {
    PickIsRight(cfg, failed, idx);
  }

  /** Without a pool the job's own proxy is used if there is one; otherwise the job aborts if proxies are required,
      and goes without one if not. A pool without a healthy proxy left is never replaced by the job's own. */
  lemma NoPoolNoChoice(cfg: Config, failed: set<string>, idx: nat)
    ensures cfg.proxies == [] ==>
              PickProxy(cfg, failed, idx)
              == match cfg.jobProxy
                 case Some(p) => if p != "" then Use(Some(p)) else if cfg.requireProxy then Abort else Use(None)
                 case None => if cfg.requireProxy then Abort else Use(None)
    ensures cfg.proxies != [] && (forall p <- cfg.proxies :: p == "" || p in failed || cfg.dead(p)) ==>
              PickProxy(cfg, failed, idx) == if cfg.requireProxy then Abort else Use(None)
  {
    PickIsRight(cfg, failed, idx);
    if cfg.proxies != [] && (forall p <- cfg.proxies :: p == "" || p in failed || cfg.dead(p)) {
      assert forall p <- cfg.proxies :: !Healthy(cfg, failed, p);
      assert forall k: nat :: k < |cfg.proxies| ==> At(cfg, idx, k) in cfg.proxies;
    }
  }

  method PickHealthyProxy(cfg: Config, failed: set<string>, idx: nat) returns (r: Pick)
    ensures RightPick(cfg, failed, idx, r) && r == PickProxy(cfg, failed, idx)
  {
    PickIsRight(cfg, failed, idx);
    if |cfg.proxies| == 0 {
      if cfg.requireProxy && (cfg.jobProxy == None || cfg.jobProxy.value == "") { return Abort; }
      return Use(if cfg.jobProxy == None || cfg.jobProxy.value == "" then None else cfg.jobProxy);
    }
    for attempt := 0 to |cfg.proxies|
      invariant PickFrom(cfg, failed, idx, attempt) == PickProxy(cfg, failed, idx)
    {
      var cand := At(cfg, idx, attempt);
      if Healthy(cfg, failed, cand) { return Use(Some(cand)); }
    }
    if cfg.requireProxy { return Abort; }
    return Use(None);
  }

  // ---- Verdicts --------------------------------------------------------------------------

  datatype Parsed = Parsed(isDead: bool, stillPaid: bool, errorType: string)

  datatype Result = Result(parsed: Option<Parsed>, timedOut: bool)

  const NO_RETRY :=
    {"wrong_password", "2fa", "blocked", "domain_mass_die", "flow_blocked", "account_disabled", "plan_lost"}

  predicate Ambiguous(r: Result) {
    r.parsed.Some? && !r.parsed.value.isDead && !r.parsed.value.stillPaid && r.parsed.value.errorType !in NO_RETRY
  }

  /** A verdict that stands: dead, still paid, or one of the errors that another try would not change. */
  predicate Definitive(r: Result) {
    r.parsed.Some? &&
    var p := r.parsed.value;
    || p.isDead
    || p.stillPaid
    || p.errorType == "wrong_password"
    || p.errorType == "2fa"
    || p.errorType == "blocked"
    || p.errorType == "domain_mass_die"
    || p.errorType == "flow_blocked"
    || p.errorType == "account_disabled"
    || p.errorType == "plan_lost"
  }

  predicate ProxyDied(r: Result) { r.parsed.Some? && r.parsed.value.errorType == "proxy_die" }

  // ---- The engine ------------------------------------------------------------------------

  /** One try for one account: skipped because its domain is known to be dead, or made through a proxy. */
  datatype Attempt = Attempt(offset: nat, skipped: bool, proxy: Option<string>, result: Result)

  /** What the world does: which accounts are skipped and what the tools say. */
  datatype World = World(massDead: (nat, nat) -> bool, check: (nat, nat, Option<string>) -> Result)

  datatype Engine = Engine(results: seq<Result>, lastProxy: map<nat, Option<string>>, failed: set<string>,
                           history: seq<seq<Attempt>>)

  const SKIPPED := Result(Some(Parsed(true, false, "domain_mass_die")), false)

  /** The pick for an account: an account starts at its own place in the pool and moves on with the offset. */
  function PickAt(cfg: Config, failed: set<string>, i: nat, offset: nat): Pick {
    PickProxy(cfg, failed, if cfg.proxies == [] then 0 else cfg.start(i) + offset)
  }

  function Try(cfg: Config, w: World, failed: set<string>, i: nat, offset: nat): Option<Attempt> {
    if w.massDead(i, offset) then Some(Attempt(offset, true, None, SKIPPED))
    else
      match PickAt(cfg, failed, i, offset)
      case Abort => None
      case Use(p) => Some(Attempt(offset, false, p, w.check(i, offset, p)))
  }

  /** All tries of one pass; no result at all if one of them has no proxy. */
  function Tries(cfg: Config, w: World, failed: set<string>, idxs: seq<nat>, offset: nat): (r: Option<seq<Attempt>>)
    ensures r.Some? ==> |r.value| == |idxs|
  {
    if idxs == [] then Some([])
    else
      var n := |idxs| - 1;
      match Tries(cfg, w, failed, idxs[..n], offset)
      case None => None
      case Some(earlier) =>
        match Try(cfg, w, failed, idxs[n], offset)
        case None => None
        case Some(a) => Some(earlier + [a])
  }

  function StoreOne(s: Engine, i: nat, a: Attempt): Engine
    requires i < |s.results| == |s.history|
  {
    s.(results := s.results[i := a.result], history := s.history[i := s.history[i] + [a]],
       lastProxy := if a.skipped then s.lastProxy else s.lastProxy[i := a.proxy])
  }

  predicate Within(s: Engine, idxs: seq<nat>) {
    |s.results| == |s.history| && forall k :: 0 <= k < |idxs| ==> idxs[k] < |s.results|
  }

  function Store(s: Engine, idxs: seq<nat>, tries: seq<Attempt>): (t: Engine)
    requires Within(s, idxs) && |idxs| == |tries|
    ensures |t.results| == |s.results| && |t.history| == |s.history| && t.failed == s.failed
    decreases |idxs|
  {
    if idxs == [] then s
    else
      var n := |idxs| - 1;
      StoreOne(Store(s, idxs[..n], tries[..n]), idxs[n], tries[n])
  }

  /** The account's last try says that its proxy died, and there was one. */
  predicate DiedUnder(s: Engine, i: nat) {
    && i < |s.results|
    && ProxyDied(s.results[i]) && i in s.lastProxy && s.lastProxy[i].Some? && s.lastProxy[i].value != ""
  }

  /** The proxies that died under the accounts below `n`. */
  function Died(s: Engine, n: nat): set<string>
    requires n <= |s.results|
  {
    if n == 0 then {}
    else
      var i := n - 1;
      Died(s, i) + (if DiedUnder(s, i) then {s.lastProxy[i].value} else {})
  }

  function Recorded(s: Engine): Engine { s.(failed := s.failed + Died(s, |s.results|)) }

  /** The two loops: results without a parse, then ambiguous verdicts. */
  datatype Loop = Unparsed | Unclear

  predicate Again(l: Loop, r: Result) {
    match l
    case Unparsed => r.parsed == None
    case Unclear => Ambiguous(r)
  }

  function RetryIdx(l: Loop, rs: seq<Result>): seq<nat> {
    if rs == [] then []
    else
      var n := |rs| - 1;
      var earlier := RetryIdx(l, rs[..n]);
      if Again(l, rs[n]) then earlier + [n] else earlier
  }

  lemma {:induction false} RetryIdxAre(l: Loop, rs: seq<Result>)
    ensures forall i: nat :: i in RetryIdx(l, rs) <==> i < |rs| && Again(l, rs[i])
    ensures forall k :: 0 <= k < |RetryIdx(l, rs)| ==> RetryIdx(l, rs)[k] < |rs|
    ensures forall a, b :: 0 <= a < b < |RetryIdx(l, rs)| ==> RetryIdx(l, rs)[a] < RetryIdx(l, rs)[b]
    decreases |rs|
  {
    if rs != [] {
      var n := |rs| - 1;
      RetryIdxAre(l, rs[..n]);
      var earlier := RetryIdx(l, rs[..n]);
      forall a | 0 <= a < |earlier| ensures earlier[a] < n { assert earlier[a] in earlier; }
    }
  }

  /** One pass of a loop; the first loop does not record failed proxies. */
  function Pass(cfg: Config, w: World, s: Engine, l: Loop, offset: nat): Option<Engine>
    requires |s.results| == |s.history|
  {
    var idxs := RetryIdx(l, s.results);
    RetryIdxAre(l, s.results);
    match Tries(cfg, w, s.failed, idxs, offset)
    case None => None
    case Some(tries) =>
      var t := Store(s, idxs, tries);
      Some(if l == Unclear then Recorded(t) else t)
  }

  function Passes(cfg: Config, w: World, s: Engine, l: Loop, first: nat, times: nat): (r: Option<Engine>)
    requires |s.results| == |s.history|
    ensures r.Some? ==> |r.value.results| == |r.value.history| == |s.results|
    decreases times
  {
    if times == 0 || RetryIdx(l, s.results) == [] then Some(s)
    else
      match Pass(cfg, w, s, l, first)
      case None => None
      case Some(t) => Passes(cfg, w, t, l, first + 1, times - 1)
  }

  /** Both loops after the first results, with `r1` and `r2` passes at most; None for an aborted job. */
  function Retried(cfg: Config, w: World, s: Engine, r1: nat, r2: nat): Option<Engine>
    requires |s.results| == |s.history|
  {
    match Passes(cfg, w, Recorded(s), Unparsed, 1, r1)
    case None => None
    case Some(t) => Passes(cfg, w, t, Unclear, r1 + 1, r2)
  }

  // ---- The first results -----------------------------------------------------------------

  predicate Live(cfg: Config, p: string) { p != "" && !cfg.dead(p) }

  /** Proxies are required and there is nothing to use. */
  predicate NothingToUse(cfg: Config) {
    && cfg.requireProxy && (forall p <- cfg.proxies :: !Live(cfg, p))
    && (cfg.jobProxy == None || cfg.jobProxy.value == "")
  }

  function UpTo(n: nat): seq<nat> { seq(n, i => i) }

  /** The engine once every account had its first try. */
  function FirstEngine(tries: seq<Attempt>): Engine {
    Engine(seq(|tries|, i requires 0 <= i < |tries| => tries[i].result),
           map i: nat | i < |tries| && !tries[i].skipped :: tries[i].proxy,
           {},
           seq(|tries|, i requires 0 <= i < |tries| => [tries[i]]))
  }

  function First(cfg: Config, w: World, n: nat): (r: Option<Engine>)
    ensures r.Some? ==> |r.value.results| == |r.value.history| == n
  {
    if NothingToUse(cfg) then None
    else
      match Tries(cfg, w, {}, UpTo(n), 0)
      case None => None
      case Some(tries) => Some(FirstEngine(tries))
  }

  /** The whole job over `n` accounts; None if it is aborted. */
  function Job(cfg: Config, w: World, n: nat, r1: nat, r2: nat): Option<Engine> {
    match First(cfg, w, n)
    case None => None
    case Some(s) => Retried(cfg, w, s, r1, r2)
  }

  // ---- What the loops keep ---------------------------------------------------------------

  /** The stored result is that of the last attempt; no attempt before it was definitive; offsets grow. */
  ghost predicate Sound(h: seq<Attempt>, r: Result) {
    && h != [] && h[|h| - 1].result == r
    && (forall k :: 0 <= k < |h| - 1 ==> !Definitive(h[k].result) && h[k].offset < h[k + 1].offset)
  }

  ghost predicate Good(s: Engine, before: nat) {
    && |s.results| == |s.history|
    && forall i: nat :: i < |s.results| ==>
         Sound(s.history[i], s.results[i]) && s.history[i][|s.history[i]| - 1].offset < before
  }

  /** The pass touched exactly the accounts it was for, once each. */
  ghost predicate Extends(s: Engine, t: Engine, l: Loop, i: nat) {
    && i < |s.results| == |s.history| == |t.results| == |t.history|
    && if Again(l, s.results[i]) then |t.history[i]| == |s.history[i]| + 1 && s.history[i] <= t.history[i]
       else t.results[i] == s.results[i] && t.history[i] == s.history[i]
  }

  lemma StoreOneAt(s: Engine, j: nat, a: Attempt, i: nat)
    requires j < |s.results| == |s.history| && i < |s.results|
    ensures var t := StoreOne(s, j, a);
      && (i != j ==> t.results[i] == s.results[i] && t.history[i] == s.history[i])
      && (i != j || a.skipped ==> (i in t.lastProxy <==> i in s.lastProxy))
      && (i != j && i in s.lastProxy ==> t.lastProxy[i] == s.lastProxy[i])
      && (i == j ==> t.results[i] == a.result && t.history[i] == s.history[i] + [a])
      && (i == j && !a.skipped ==> i in t.lastProxy && t.lastProxy[i] == a.proxy)
  {}

  lemma {:induction false} StoreElsewhere(s: Engine, idxs: seq<nat>, tries: seq<Attempt>, i: nat)
    requires Within(s, idxs) && |idxs| == |tries| && i < |s.results| && i !in idxs
    ensures var t := Store(s, idxs, tries);
      && t.results[i] == s.results[i] && t.history[i] == s.history[i]
      && (i in t.lastProxy <==> i in s.lastProxy) && (i in s.lastProxy ==> t.lastProxy[i] == s.lastProxy[i])
    decreases |idxs|
  {
    if idxs != [] {
      var n := |idxs| - 1;
      assert forall j <- idxs[..n] :: j in idxs;
      assert idxs[n] in idxs;
      StoreElsewhere(s, idxs[..n], tries[..n], i);
      StoreOneAt(Store(s, idxs[..n], tries[..n]), idxs[n], tries[n], i);
    }
  }

  lemma {:induction false} StoreAt(s: Engine, idxs: seq<nat>, tries: seq<Attempt>, k: nat)
    requires Within(s, idxs) && |idxs| == |tries| && k < |idxs|
    requires forall a, b :: 0 <= a < b < |idxs| ==> idxs[a] < idxs[b]
    ensures var t, i := Store(s, idxs, tries), idxs[k];
      && t.results[i] == tries[k].result && t.history[i] == s.history[i] + [tries[k]]
      && (if tries[k].skipped then i in t.lastProxy <==> i in s.lastProxy
          else i in t.lastProxy && t.lastProxy[i] == tries[k].proxy)
    decreases |idxs|
  {
    var n, i := |idxs| - 1, idxs[k];
    if k < n {
      StoreAt(s, idxs[..n], tries[..n], k);
    } else {
      StoreElsewhere(s, idxs[..n], tries[..n], i);
    }
    StoreOneAt(Store(s, idxs[..n], tries[..n]), idxs[n], tries[n], i);
  }

  lemma {:induction false} TriesAre(cfg: Config, w: World, failed: set<string>, idxs: seq<nat>, offset: nat)
    requires Tries(cfg, w, failed, idxs, offset).Some?
    ensures var ts := Tries(cfg, w, failed, idxs, offset).value;
            forall k :: 0 <= k < |idxs| ==> Try(cfg, w, failed, idxs[k], offset) == Some(ts[k])
    decreases |idxs|
  {
    if idxs != [] { TriesAre(cfg, w, failed, idxs[..|idxs| - 1], offset); }
  }

  lemma GrowsSound(h: seq<Attempt>, r: Result, a: Attempt)
    ensures Sound(h, r) && !Definitive(r) && h[|h| - 1].offset < a.offset ==> Sound(h + [a], a.result)
  {}

  /** The one attempt that a pass adds for an account it runs again: it picks by what is recorded as failed
      when the pass starts. */
  lemma AttemptOf(cfg: Config, w: World, s: Engine, l: Loop, offset: nat, i: nat) returns (a: Attempt)
    requires |s.results| == |s.history| && i < |s.results| && Pass(cfg, w, s, l, offset).Some? && Again(l, s.results[i])
    ensures var t := Pass(cfg, w, s, l, offset).value;
      && |t.results| == |t.history| == |s.results|
      && t.history[i] == s.history[i] + [a] && t.results[i] == a.result
      && a.offset == offset && Try(cfg, w, s.failed, i, offset) == Some(a)
      && (if a.skipped then i in t.lastProxy <==> i in s.lastProxy else i in t.lastProxy && t.lastProxy[i] == a.proxy)
  {
    var idxs := RetryIdx(l, s.results);
    RetryIdxAre(l, s.results);
    var tries := Tries(cfg, w, s.failed, idxs, offset).value;
    TriesAre(cfg, w, s.failed, idxs, offset);
    assert i in idxs;
    var k :| 0 <= k < |idxs| && idxs[k] == i;
    StoreAt(s, idxs, tries, k);
    a := tries[k];
  }

  lemma LeftAlone(cfg: Config, w: World, s: Engine, l: Loop, offset: nat, i: nat)
    requires |s.results| == |s.history| && i < |s.results| && Pass(cfg, w, s, l, offset).Some? && !Again(l, s.results[i])
    ensures var t := Pass(cfg, w, s, l, offset).value;
      && |t.results| == |t.history| == |s.results|
      && t.history[i] == s.history[i] && t.results[i] == s.results[i]
      && (i in s.lastProxy ==> i in t.lastProxy && t.lastProxy[i] == s.lastProxy[i])
  {
    var idxs := RetryIdx(l, s.results);
    RetryIdxAre(l, s.results);
    StoreElsewhere(s, idxs, Tries(cfg, w, s.failed, idxs, offset).value, i);
  }

  lemma PassAt(cfg: Config, w: World, s: Engine, l: Loop, offset: nat, i: nat)
    requires Good(s, offset) && i < |s.results| && Pass(cfg, w, s, l, offset).Some?
    ensures var t := Pass(cfg, w, s, l, offset).value;
      && |t.results| == |t.history| == |s.results|
      && Extends(s, t, l, i) && Sound(t.history[i], t.results[i])
      && t.history[i][|t.history[i]| - 1].offset < offset + 1
  {
    if Again(l, s.results[i]) {
      var a := AttemptOf(cfg, w, s, l, offset, i);
      GrowsSound(s.history[i], s.results[i], a);
    } else {
      LeftAlone(cfg, w, s, l, offset, i);
    }
  }

  lemma PassKeepsGood(cfg: Config, w: World, s: Engine, l: Loop, offset: nat)
    requires Good(s, offset) && Pass(cfg, w, s, l, offset).Some?
    ensures Good(Pass(cfg, w, s, l, offset).value, offset + 1)
    ensures |Pass(cfg, w, s, l, offset).value.results| == |s.results|
  {
    assert |Pass(cfg, w, s, l, offset).value.results| == |Pass(cfg, w, s, l, offset).value.history| == |s.results|;
    forall i: nat | i < |s.results|
      ensures var t := Pass(cfg, w, s, l, offset).value;
        Sound(t.history[i], t.results[i]) && t.history[i][|t.history[i]| - 1].offset < offset + 1
    {
      PassAt(cfg, w, s, l, offset, i);
    }
  }

  /** What two states of the engine say about one account: everything known before is still there, a
      definitive verdict is final, and at most `passes` attempts came in between. */
  ghost predicate Continues(s: Engine, t: Engine, i: nat, passes: nat) {
    && i < |s.results| == |s.history| == |t.results| == |t.history|
    && s.history[i] <= t.history[i] && |t.history[i]| <= |s.history[i]| + passes
    && (Definitive(s.results[i]) ==> t.results[i] == s.results[i] && t.history[i] == s.history[i])
  }

  lemma {:induction false} PassesKeep(cfg: Config, w: World, s: Engine, l: Loop, first: nat, times: nat, i: nat)
    requires Good(s, first) && i < |s.results| && Passes(cfg, w, s, l, first, times).Some?
    ensures var t := Passes(cfg, w, s, l, first, times).value;
            Good(t, first + times) && Continues(s, t, i, times)
    decreases times
  {
    if times > 0 && RetryIdx(l, s.results) != [] {
      PassAt(cfg, w, s, l, first, i);
      PassKeepsGood(cfg, w, s, l, first);
      PassesKeep(cfg, w, Pass(cfg, w, s, l, first).value, l, first + 1, times - 1, i);
    }
  }

  lemma RecordingKeepsGood(s: Engine, before: nat)
    ensures Good(s, before) ==> Good(Recorded(s), before)
  {}

  lemma ContinuesOn(s: Engine, t: Engine, u: Engine, i: nat, a: nat, b: nat)
    ensures Continues(s, t, i, a) && Continues(t, u, i, b) ==> Continues(s, u, i, a + b)
  {}

  lemma LoopsKeep(cfg: Config, w: World, s: Engine, mid: Engine, t: Engine, r1: nat, r2: nat, i: nat)
    requires Good(s, 1) && i < |s.results|
    requires Passes(cfg, w, s, Unparsed, 1, r1) == Some(mid) && Passes(cfg, w, mid, Unclear, r1 + 1, r2) == Some(t)
    ensures Continues(s, t, i, r1 + r2) && Sound(t.history[i], t.results[i])
  {
    PassesKeep(cfg, w, s, Unparsed, 1, r1, i);
    PassesKeep(cfg, w, mid, Unclear, r1 + 1, r2, i);
    ContinuesOn(s, mid, t, i, r1, r2);
  }

  /** Through both loops and for every account: a dead, still-paid or no-retry verdict is never run again or
      replaced, the stored result is the account's own last attempt's, and there are at most `r1 + r2`
      re-runs. */
  lemma RetriesAreSound(cfg: Config, w: World, s: Engine, r1: nat, r2: nat, i: nat)
    requires Good(s, 1) && i < |s.results| && Retried(cfg, w, s, r1, r2).Some?
    ensures var t := Retried(cfg, w, s, r1, r2).value;
            Continues(s, t, i, r1 + r2) && Sound(t.history[i], t.results[i])
  {
    RecordingKeepsGood(s, 1);
    var mid := Passes(cfg, w, Recorded(s), Unparsed, 1, r1).value;
    LoopsKeep(cfg, w, Recorded(s), mid, Retried(cfg, w, s, r1, r2).value, r1, r2, i);
  }

  /** One attempt per account, made with nothing recorded as failed. */
  lemma FirstAttempts(cfg: Config, w: World, n: nat, i: nat)
    requires First(cfg, w, n).Some? && i < n
    ensures var s := First(cfg, w, n).value;
      && |s.history[i]| == 1 && s.history[i][0].offset == 0 && s.history[i][0].result == s.results[i]
      && Try(cfg, w, {}, i, 0) == Some(s.history[i][0]) && s.failed == {}
      && (!s.history[i][0].skipped ==> i in s.lastProxy && s.lastProxy[i] == s.history[i][0].proxy)
  {
    TriesAre(cfg, w, {}, UpTo(n), 0);
  }

  lemma FirstIsGood(cfg: Config, w: World, n: nat)
    requires First(cfg, w, n).Some?
    ensures Good(First(cfg, w, n).value, 1)
  {
    forall i: nat | i < n
      ensures var s := First(cfg, w, n).value;
        Sound(s.history[i], s.results[i]) && s.history[i][|s.history[i]| - 1].offset < 1
    {
      FirstAttempts(cfg, w, n, i);
    }
  }

  /** The whole job: every account is tried at least once and at most `1 + r1 + r2` times, stops being tried
      at its first definitive verdict, and ends with its own last attempt's result. */
  lemma JobIsSound(cfg: Config, w: World, n: nat, r1: nat, r2: nat, i: nat)
    requires Job(cfg, w, n, r1, r2).Some? && i < n
    ensures var t := Job(cfg, w, n, r1, r2).value;
      && |t.results| == |t.history| == n
      && Sound(t.history[i], t.results[i]) && |t.history[i]| <= 1 + r1 + r2
  {
    FirstIsGood(cfg, w, n);
    FirstAttempts(cfg, w, n, i);
    RetriesAreSound(cfg, w, First(cfg, w, n).value, r1, r2, i);
  }

  function PassCount(cfg: Config, w: World, s: Engine, l: Loop, first: nat, times: nat): nat
    requires |s.results| == |s.history|
    decreases times
  {
    if times == 0 || RetryIdx(l, s.results) == [] then 0
    else
      match Pass(cfg, w, s, l, first)
      case None => 0
      case Some(t) => 1 + PassCount(cfg, w, t, l, first + 1, times - 1)
  }

  /** A loop stops early only when no account is left that it would run again. */
  lemma {:induction false} LoopsRunOut(cfg: Config, w: World, s: Engine, l: Loop, first: nat, times: nat)
    requires |s.results| == |s.history| && Passes(cfg, w, s, l, first, times).Some?
    ensures var t := Passes(cfg, w, s, l, first, times).value;
            RetryIdx(l, t.results) == [] || PassCount(cfg, w, s, l, first, times) == times
    decreases times
  {
    if times > 0 && RetryIdx(l, s.results) != [] {
      LoopsRunOut(cfg, w, Pass(cfg, w, s, l, first).value, l, first + 1, times - 1);
    }
  }

  // ---- Which attempts a job makes --------------------------------------------------------

  /** After an attempt: the offset of the account's next one, or None if it is the last. An attempt without a
      parsed answer is repeated in the first loop only, one with an unclear answer in the second loop. */
  function NextOffset(a: Attempt, r1: nat, r2: nat): Option<nat> {
    if Definitive(a.result) then None
    else if a.result.parsed == None then if a.offset < r1 then Some(a.offset + 1) else None
    else if a.offset < r1 then (if r2 > 0 then Some(r1 + 1) else None)
    else if a.offset < r1 + r2 then Some(a.offset + 1) else None
  }

  /** What a loop adds to the history `h` of an account. */
  ghost predicate LoopAdds(l: Loop, first: nat, times: nat, h: seq<Attempt>, h2: seq<Attempt>) {
    && h != [] && h <= h2 && |h2| <= |h| + times
    && (forall k :: |h| <= k < |h2| ==> h2[k].offset == first + (k - |h|))
    && (forall k :: |h| - 1 <= k < |h2| - 1 ==> Again(l, h2[k].result))
    && (|h2| < |h| + times ==> !Again(l, h2[|h2| - 1].result))
  }

  lemma AddsOneMore(l: Loop, first: nat, times: nat, h: seq<Attempt>, h1: seq<Attempt>, h2: seq<Attempt>)
    requires h != [] && OneMore(l, first, h, h1) && LoopAdds(l, first + 1, times, h1, h2)
    ensures LoopAdds(l, first, times + 1, h, h2)
  {
    assert h2[|h| - 1] == h1[|h| - 1] == h[|h| - 1];
    if |h1| > |h| { assert h2[|h|] == h1[|h|]; }
  }

  /** What one pass does to the history of an account. */
  ghost predicate OneMore(l: Loop, offset: nat, h: seq<Attempt>, h1: seq<Attempt>) {
    && h != [] && h <= h1
    && if Again(l, h[|h| - 1].result) then |h1| == |h| + 1 && h1[|h|].offset == offset else h1 == h
  }

  lemma PassAddsOne(cfg: Config, w: World, s: Engine, l: Loop, offset: nat, i: nat, t: Engine)
    requires Good(s, offset) && i < |s.results| && Pass(cfg, w, s, l, offset) == Some(t)
    ensures Good(t, offset + 1) && |t.results| == |t.history| == |s.results|
    ensures OneMore(l, offset, s.history[i], t.history[i])
  {
    PassKeepsGood(cfg, w, s, l, offset);
    assert Sound(s.history[i], s.results[i]);
    if Again(l, s.results[i]) {
      var a := AttemptOf(cfg, w, s, l, offset, i);
    } else {
      LeftAlone(cfg, w, s, l, offset, i);
    }
  }

  lemma NobodyAgain(s: Engine, l: Loop, first: nat, times: nat, i: nat)
    requires Good(s, first) && i < |s.results| && (times == 0 || RetryIdx(l, s.results) == [])
    ensures LoopAdds(l, first, times, s.history[i], s.history[i])
  {
    assert Sound(s.history[i], s.results[i]);
    RetryIdxAre(l, s.results);
  }

  lemma {:induction false} LoopRuns(cfg: Config, w: World, s: Engine, l: Loop, first: nat, times: nat, u: Engine, i: nat)
    requires Good(s, first) && i < |s.results| && Passes(cfg, w, s, l, first, times) == Some(u)
    ensures |u.history| == |s.history| && LoopAdds(l, first, times, s.history[i], u.history[i])
    decreases times
  {
    if times > 0 && RetryIdx(l, s.results) != [] {
      var t := Pass(cfg, w, s, l, first).value;
      PassAddsOne(cfg, w, s, l, first, i, t);
      LoopRuns(cfg, w, t, l, first + 1, times - 1, u, i);
      AddsOneMore(l, first, times - 1, s.history[i], t.history[i], u.history[i]);
    } else {
      NobodyAgain(s, l, first, times, i);
    }
  }

  lemma AgainInColumns(r: Result)
    ensures Again(Unparsed, r) <==> r.parsed == None
    ensures Again(Unclear, r) <==> r.parsed.Some? && !Definitive(r)
  {}

  /** The law of one account's history, from its two loops. */
  lemma LoopsMakeHistory(r1: nat, r2: nat, h: seq<Attempt>, mid: seq<Attempt>, all: seq<Attempt>, k: nat)
    requires |h| == 1 && h[0].offset == 0 && k < |all|
    requires LoopAdds(Unparsed, 1, r1, h, mid) && LoopAdds(Unclear, r1 + 1, r2, mid, all)
    ensures match NextOffset(all[k], r1, r2)
            case None => k == |all| - 1
            case Some(o) => k + 1 < |all| && all[k + 1].offset == o
  {
    AgainInColumns(all[k].result);
    assert forall j :: 0 <= j < |mid| ==> all[j] == mid[j];
    assert mid[0] == h[0];
    if k < |mid| { assert all[k].offset == k; }
  }

  /** Over whole jobs and for every account: an attempt with a verdict that stands is the account's last, and
      its result is the account's; one without a parsed answer is followed by the next of the first loop while
      there is one, one with any other answer by the next of the second loop while there is one; and nothing
      else is attempted. */
  lemma HistoryExactly(cfg: Config, w: World, n: nat, r1: nat, r2: nat, i: nat, k: nat)
    requires Job(cfg, w, n, r1, r2).Some? && i < n && k < |Job(cfg, w, n, r1, r2).value.history[i]|
    ensures var t := Job(cfg, w, n, r1, r2).value;
            var h := t.history[i];
      && |t.results| == n && h[0].offset == 0 && t.results[i] == h[|h| - 1].result
      && (match NextOffset(h[k], r1, r2)
          case None => k == |h| - 1
          case Some(o) => k + 1 < |h| && h[k + 1].offset == o)
  {
    var s, u := First(cfg, w, n).value, Job(cfg, w, n, r1, r2).value;
    var mid := AfterFirstLoop(cfg, w, n, r1).value;
    FirstAttempts(cfg, w, n, i);
    FirstIsGood(cfg, w, n);
    RecordingKeepsGood(s, 1);
    LoopRuns(cfg, w, Recorded(s), Unparsed, 1, r1, mid, i);
    FirstLoopKeeps(cfg, w, n, r1, i);
    LoopRuns(cfg, w, mid, Unclear, r1 + 1, r2, u, i);
    LoopsMakeHistory(r1, r2, s.history[i], mid.history[i], u.history[i], k);
    JobIsSound(cfg, w, n, r1, r2, i);
  }

  // ---- Which proxy each attempt used -----------------------------------------------------

  /** What is recorded as failed when the pass with offset `o` of a loop starts. */
  function FailedAt(cfg: Config, w: World, s: Engine, l: Loop, first: nat, times: nat, o: nat): set<string>
    requires |s.results| == |s.history|
    decreases times
  {
    if o <= first || times == 0 || RetryIdx(l, s.results) == [] then s.failed
    else
      match Pass(cfg, w, s, l, first)
      case None => s.failed
      case Some(t) => FailedAt(cfg, w, t, l, first + 1, times - 1, o)
  }

  lemma PassGrowsFailed(cfg: Config, w: World, s: Engine, l: Loop, offset: nat)
    requires |s.results| == |s.history| && Pass(cfg, w, s, l, offset).Some?
    ensures s.failed <= Pass(cfg, w, s, l, offset).value.failed
    ensures l == Unparsed ==> Pass(cfg, w, s, l, offset).value.failed == s.failed
  {
    RetryIdxAre(l, s.results);
  }

  /** The record only grows, from pass to pass and to the end of the loop. */
  lemma {:induction false} FailedGrows(cfg: Config, w: World, s: Engine, l: Loop, first: nat, times: nat, o: nat,
                                       later: nat)
    requires |s.results| == |s.history| && o <= later && Passes(cfg, w, s, l, first, times).Some?
    ensures s.failed <= FailedAt(cfg, w, s, l, first, times, o) <= FailedAt(cfg, w, s, l, first, times, later)
    ensures FailedAt(cfg, w, s, l, first, times, later) <= Passes(cfg, w, s, l, first, times).value.failed
    decreases times
  {
    if times > 0 && RetryIdx(l, s.results) != [] {
      PassGrowsFailed(cfg, w, s, l, first);
      FailedGrows(cfg, w, Pass(cfg, w, s, l, first).value, l, first + 1, times - 1, o, later);
    }
  }

  lemma FailedLater(cfg: Config, w: World, s: Engine, l: Loop, first: nat, times: nat, o: nat)
    requires |s.results| == |s.history| && times > 0 && RetryIdx(l, s.results) != [] && Pass(cfg, w, s, l, first).Some?
    ensures FailedAt(cfg, w, s, l, first, times, o)
            == if o <= first then s.failed
               else FailedAt(cfg, w, Pass(cfg, w, s, l, first).value, l, first + 1, times - 1, o)
  {}

  /** What one pass adds. */
  lemma PassAdds(cfg: Config, w: World, s: Engine, l: Loop, offset: nat, i: nat)
    requires |s.results| == |s.history| && i < |s.results| && Pass(cfg, w, s, l, offset).Some?
    ensures var t := Pass(cfg, w, s, l, offset).value;
      && |t.results| == |t.history| == |s.results|
      && |s.history[i]| <= |t.history[i]| <= |s.history[i]| + 1
      && (|t.history[i]| > |s.history[i]| ==>
            var a := t.history[i][|s.history[i]|]; a.offset == offset && Try(cfg, w, s.failed, i, offset) == Some(a))
  {
    if Again(l, s.results[i]) {
      var a := AttemptOf(cfg, w, s, l, offset, i);
    } else {
      LeftAlone(cfg, w, s, l, offset, i);
    }
  }

  lemma OnePassOn(cfg: Config, w: World, s: Engine, l: Loop, first: nat, times: nat, u: Engine, i: nat)
    returns (t: Engine)
    requires Good(s, first) && i < |s.results| && times > 0 && RetryIdx(l, s.results) != []
    requires Passes(cfg, w, s, l, first, times) == Some(u)
    ensures Pass(cfg, w, s, l, first) == Some(t) && Good(t, first + 1) && |t.results| == |u.history| == |s.results|
    ensures Passes(cfg, w, t, l, first + 1, times - 1) == Some(u)
    ensures |s.history[i]| <= |t.history[i]| <= |s.history[i]| + 1 && t.history[i] <= u.history[i]
  {
    t := Pass(cfg, w, s, l, first).value;
    PassKeepsGood(cfg, w, s, l, first);
    PassAdds(cfg, w, s, l, first, i);
    PassesKeep(cfg, w, t, l, first + 1, times - 1, i);
  }

  /** The pass of a loop that added an attempt, with the states before and after it. */
  lemma {:induction false} PassOf(cfg: Config, w: World, s: Engine, l: Loop, first: nat, times: nat, u: Engine,
                                  i: nat, k: nat)
    returns (o: nat, before: Engine, after: Engine)
    requires Good(s, first) && i < |s.results| && Passes(cfg, w, s, l, first, times) == Some(u)
    requires |u.history| == |s.history| && |s.history[i]| <= k < |u.history[i]|
    ensures first <= o < first + times && |before.results| == |before.history| == |s.results|
    ensures Pass(cfg, w, before, l, o) == Some(after) && |after.history| == |s.results|
    ensures |before.history[i]| == k < |after.history[i]| && after.history[i] <= u.history[i]
    ensures before.failed == FailedAt(cfg, w, s, l, first, times, o)
    decreases times
  {
    if times > 0 && RetryIdx(l, s.results) != [] {
      var t := OnePassOn(cfg, w, s, l, first, times, u, i);
      if k < |t.history[i]| {
        o, before, after := first, s, t;
      } else {
        o, before, after := PassOf(cfg, w, t, l, first + 1, times - 1, u, i, k);
        FailedLater(cfg, w, s, l, first, times, o);
      }
    }
  }

  /** Every attempt that a loop adds was made by what was recorded as failed when its pass started. */
  lemma LoopAttempts(cfg: Config, w: World, s: Engine, l: Loop, first: nat, times: nat, u: Engine, i: nat, k: nat)
    requires Good(s, first) && i < |s.results| && Passes(cfg, w, s, l, first, times) == Some(u)
    requires |u.history| == |s.history| && |s.history[i]| <= k < |u.history[i]|
    ensures var a := u.history[i][k];
      && first <= a.offset < first + times
      && Try(cfg, w, FailedAt(cfg, w, s, l, first, times, a.offset), i, a.offset) == Some(a)
  {
    var o, before, after := PassOf(cfg, w, s, l, first, times, u, i, k);
    PassAdds(cfg, w, before, l, o, i);
    assert u.history[i][k] == after.history[i][k];
  }

  /** What the job had recorded as failed before its tries with offset `o`. */
  function RecordedAt(cfg: Config, w: World, s: Engine, r1: nat, r2: nat, o: nat): set<string>
    requires |s.results| == |s.history|
  {
    if o == 0 then {}
    else if o <= r1 then Recorded(s).failed
    else
      match Passes(cfg, w, Recorded(s), Unparsed, 1, r1)
      case None => {}
      case Some(mid) => FailedAt(cfg, w, mid, Unclear, r1 + 1, r2, o)
  }

  /** Proxies that die during the first loop are not recorded by it. */
  lemma {:induction false} FirstLoopRecordsNothing(cfg: Config, w: World, s: Engine, first: nat, times: nat, o: nat)
    requires |s.results| == |s.history| && Passes(cfg, w, s, Unparsed, first, times).Some?
    ensures Passes(cfg, w, s, Unparsed, first, times).value.failed == s.failed
    ensures FailedAt(cfg, w, s, Unparsed, first, times, o) == s.failed
    decreases times
  {
    if times > 0 && RetryIdx(Unparsed, s.results) != [] {
      PassGrowsFailed(cfg, w, s, Unparsed, first);
      FirstLoopRecordsNothing(cfg, w, Pass(cfg, w, s, Unparsed, first).value, first + 1, times - 1, o);
    }
  }

  /** The engine after the first loop. */
  function AfterFirstLoop(cfg: Config, w: World, n: nat, r1: nat): (r: Option<Engine>)
    ensures r.Some? ==> |r.value.results| == |r.value.history| == n
  {
    match First(cfg, w, n)
    case None => None
    case Some(s) => Passes(cfg, w, Recorded(s), Unparsed, 1, r1)
  }

  lemma FirstLoopKeeps(cfg: Config, w: World, n: nat, r1: nat, i: nat)
    requires AfterFirstLoop(cfg, w, n, r1).Some? && i < n
    ensures First(cfg, w, n).Some?
    ensures var s, mid := First(cfg, w, n).value, AfterFirstLoop(cfg, w, n, r1).value;
      && Good(mid, r1 + 1) && |s.history[i]| == 1 && s.history[i] <= mid.history[i]
      && mid.failed == Recorded(s).failed
  {
    var s := First(cfg, w, n).value;
    FirstIsGood(cfg, w, n);
    FirstAttempts(cfg, w, n, i);
    RecordingKeepsGood(s, 1);
    PassesKeep(cfg, w, Recorded(s), Unparsed, 1, r1, i);
    FirstLoopRecordsNothing(cfg, w, Recorded(s), 1, r1, 0);
  }

  /** The first loop makes all its tries by what the first results recorded. */
  lemma FirstLoopAttempts(cfg: Config, w: World, n: nat, r1: nat, i: nat, k: nat)
    requires AfterFirstLoop(cfg, w, n, r1).Some? && i < n && 1 <= k < |AfterFirstLoop(cfg, w, n, r1).value.history[i]|
    ensures First(cfg, w, n).Some?
    ensures var a := AfterFirstLoop(cfg, w, n, r1).value.history[i][k];
            1 <= a.offset <= r1 && Try(cfg, w, Recorded(First(cfg, w, n).value).failed, i, a.offset) == Some(a)
  {
    var start := Recorded(First(cfg, w, n).value);
    FirstLoopKeeps(cfg, w, n, r1, i);
    FirstIsGood(cfg, w, n);
    RecordingKeepsGood(First(cfg, w, n).value, 1);
    LoopAttempts(cfg, w, start, Unparsed, 1, r1, AfterFirstLoop(cfg, w, n, r1).value, i, k);
    FirstLoopRecordsNothing(cfg, w, start, 1, r1, AfterFirstLoop(cfg, w, n, r1).value.history[i][k].offset);
  }

  lemma SecondLoopAttempts(cfg: Config, w: World, n: nat, r1: nat, r2: nat, i: nat, k: nat)
    requires Job(cfg, w, n, r1, r2).Some? && i < n
    ensures AfterFirstLoop(cfg, w, n, r1).Some?
    ensures var mid, t := AfterFirstLoop(cfg, w, n, r1).value, Job(cfg, w, n, r1, r2).value;
      && |t.history| == n && mid.history[i] <= t.history[i]
      && (|mid.history[i]| <= k < |t.history[i]| ==>
            var a := t.history[i][k];
            a.offset > r1 && Try(cfg, w, FailedAt(cfg, w, mid, Unclear, r1 + 1, r2, a.offset), i, a.offset) == Some(a))
  {
    var mid := AfterFirstLoop(cfg, w, n, r1).value;
    FirstLoopKeeps(cfg, w, n, r1, i);
    PassesKeep(cfg, w, mid, Unclear, r1 + 1, r2, i);
    if |mid.history[i]| <= k < |Job(cfg, w, n, r1, r2).value.history[i]| {
      LoopAttempts(cfg, w, mid, Unclear, r1 + 1, r2, Job(cfg, w, n, r1, r2).value, i, k);
    }
  }

  lemma RecordedIs(cfg: Config, w: World, n: nat, r1: nat, r2: nat, o: nat)
    requires AfterFirstLoop(cfg, w, n, r1).Some?
    ensures First(cfg, w, n).Some?
    ensures var s := First(cfg, w, n).value;
            RecordedAt(cfg, w, s, r1, r2, o)
            == if o == 0 then {} else if o <= r1 then Recorded(s).failed
               else FailedAt(cfg, w, AfterFirstLoop(cfg, w, n, r1).value, Unclear, r1 + 1, r2, o)
  {}

  /** Every attempt of a job, the first included, was made by what the job had recorded by then. */
  lemma EveryAttemptIsRight(cfg: Config, w: World, n: nat, r1: nat, r2: nat, i: nat, k: nat)
    requires Job(cfg, w, n, r1, r2).Some? && i < n && k < |Job(cfg, w, n, r1, r2).value.history[i]|
    ensures var a := Job(cfg, w, n, r1, r2).value.history[i][k];
      && (a.offset == 0 <==> k == 0)
      && Try(cfg, w, RecordedAt(cfg, w, First(cfg, w, n).value, r1, r2, a.offset), i, a.offset) == Some(a)
  {
    SecondLoopAttempts(cfg, w, n, r1, r2, i, k);
    FirstLoopKeeps(cfg, w, n, r1, i);
    FirstAttempts(cfg, w, n, i);
    RecordedIs(cfg, w, n, r1, r2, Job(cfg, w, n, r1, r2).value.history[i][k].offset);
    if 1 <= k < |AfterFirstLoop(cfg, w, n, r1).value.history[i]| { FirstLoopAttempts(cfg, w, n, r1, i, k); }
  }

  lemma TryPicks(cfg: Config, w: World, failed: set<string>, i: nat, offset: nat)
    requires Try(cfg, w, failed, i, offset).Some?
    ensures var a := Try(cfg, w, failed, i, offset).value;
            a.skipped || RightPick(cfg, failed, cfg.start(i) + offset, Use(a.proxy))
  {
    PickIsRight(cfg, failed, cfg.start(i) + offset);
    if cfg.proxies == [] { PickIsRight(cfg, failed, 0); }
  }

  /** `p` is the first proxy, in circular order from `idx`, that is neither marked dead nor among `failed`. */
  ghost predicate IsFirstHealthy(cfg: Config, failed: set<string>, idx: nat, p: Option<string>) {
    exists k: nat :: FirstHealthy(cfg, failed, idx, k) && p == Some(At(cfg, idx, k))
  }

  lemma PicksFirstHealthy(cfg: Config, failed: set<string>, idx: nat, p: Option<string>)
    requires cfg.requireProxy && cfg.proxies != [] && PickProxy(cfg, failed, idx) == Use(p)
    ensures IsFirstHealthy(cfg, failed, idx, p)
  {
    PickIsRight(cfg, failed, idx);
    assert Fallback(cfg) == Abort;
    var k: nat :| FirstHealthy(cfg, failed, idx, k) && Use(p) == Use(Some(At(cfg, idx, k)));
  }

  lemma TryUsesFirstHealthy(cfg: Config, w: World, failed: set<string>, i: nat, offset: nat, a: Attempt)
    requires Try(cfg, w, failed, i, offset) == Some(a)
    requires cfg.requireProxy && cfg.proxies != []
    ensures a.skipped || IsFirstHealthy(cfg, failed, cfg.start(i) + offset, a.proxy)
  {
    if !a.skipped { PicksFirstHealthy(cfg, failed, cfg.start(i) + offset, a.proxy); }
  }

  /** With proxies required and a pool configured, every attempt of a job that was not skipped used the first
      proxy, in circular order from its account's start plus its offset, that was neither marked dead nor
      recorded as failed by then. */
  lemma ProxiesAreRight(cfg: Config, w: World, n: nat, r1: nat, r2: nat, i: nat, k: nat)
    requires Job(cfg, w, n, r1, r2).Some? && i < n && k < |Job(cfg, w, n, r1, r2).value.history[i]|
    requires cfg.requireProxy && cfg.proxies != []
    ensures var a := Job(cfg, w, n, r1, r2).value.history[i][k];
            var failed := RecordedAt(cfg, w, First(cfg, w, n).value, r1, r2, a.offset);
            a.skipped || IsFirstHealthy(cfg, failed, cfg.start(i) + a.offset, a.proxy)
  {
    EveryAttemptIsRight(cfg, w, n, r1, r2, i, k);
    var a := Job(cfg, w, n, r1, r2).value.history[i][k];
    TryUsesFirstHealthy(cfg, w, RecordedAt(cfg, w, First(cfg, w, n).value, r1, r2, a.offset), i, a.offset, a);
  }

  // ---- Dead proxies are left alone -------------------------------------------------------

  /** A death that the job takes note of: of a first try, or in the second loop. */
  predicate Noted(d: Attempt, r1: nat) {
    && (d.offset == 0 || d.offset > r1)
    && !d.skipped && ProxyDied(d.result) && d.proxy.Some? && d.proxy.value != ""
  }

  /** The last proxy of an account is that of its last attempt, unless that was skipped. */
  ghost predicate Tracked(s: Engine, i: nat) {
    i < |s.results| == |s.history| &&
    (s.history[i] != [] ==>
      var a := s.history[i][|s.history[i]| - 1];
      && s.results[i] == a.result && (a.skipped ==> !ProxyDied(a.result))
      && (!a.skipped ==> i in s.lastProxy && s.lastProxy[i] == a.proxy))
  }

  /** All noted deaths of an account are recorded. */
  ghost predicate Known(s: Engine, r1: nat, i: nat) {
    i < |s.history| &&
    forall k :: 0 <= k < |s.history[i]| && Noted(s.history[i][k], r1) ==> s.history[i][k].proxy.value in s.failed
  }

  /** After a noted death no account uses that proxy again. */
  ghost predicate NotReused(s: Engine, r1: nat, i: nat, j: nat) {
    i < |s.history| && j < |s.history| &&
    forall k, m :: 0 <= k < |s.history[i]| && 0 <= m < |s.history[j]|
      && Noted(s.history[i][k], r1) && s.history[i][k].offset < s.history[j][m].offset && !s.history[j][m].skipped
      ==> s.history[j][m].proxy != s.history[i][k].proxy
  }

  lemma {:induction false} DiedAre(s: Engine, n: nat)
    requires n <= |s.results|
    ensures forall i: nat :: i < n && DiedUnder(s, i) ==> s.lastProxy[i].value in Died(s, n)
  {
    if n > 0 { DiedAre(s, n - 1); }
  }

  lemma RecordingKnows(s: Engine, r1: nat, i: nat)
    requires i < |s.results| == |s.history| && Tracked(s, i)
    requires forall k :: 0 <= k < |s.history[i]| - 1 && Noted(s.history[i][k], r1)
                         ==> s.history[i][k].proxy.value in s.failed
    ensures Known(Recorded(s), r1, i) && Tracked(Recorded(s), i)
  {
    DiedAre(s, |s.results|);
    if s.history[i] != [] && Noted(s.history[i][|s.history[i]| - 1], r1) { assert DiedUnder(s, i); }
  }

  lemma TrySkips(cfg: Config, w: World, failed: set<string>, i: nat, offset: nat)
    ensures var r := Try(cfg, w, failed, i, offset); r.Some? && r.value.skipped ==> !ProxyDied(r.value.result)
  {}

  /** A try uses nothing that is recorded as failed. */
  lemma TryAvoidsFailed(cfg: Config, w: World, failed: set<string>, i: nat, offset: nat)
    requires cfg.proxies != [] && Try(cfg, w, failed, i, offset).Some?
    ensures var a := Try(cfg, w, failed, i, offset).value;
            !a.skipped && a.proxy.Some? ==> a.proxy.value !in failed
  {
    PickIsRight(cfg, failed, cfg.start(i) + offset);
  }

  lemma PassTracks(cfg: Config, w: World, s: Engine, l: Loop, offset: nat, i: nat)
    requires |s.results| == |s.history| && i < |s.results| && Pass(cfg, w, s, l, offset).Some? && Tracked(s, i)
    ensures var t := Pass(cfg, w, s, l, offset).value; |t.results| == |t.history| == |s.results| && Tracked(t, i)
  {
    if Again(l, s.results[i]) {
      var a := AttemptOf(cfg, w, s, l, offset, i);
      TrySkips(cfg, w, s.failed, i, offset);
    } else {
      LeftAlone(cfg, w, s, l, offset, i);
    }
  }

  /** A pass keeps noted deaths recorded: the first loop adds none, the second records its own. */
  lemma PassKnows(cfg: Config, w: World, s: Engine, l: Loop, offset: nat, r1: nat, i: nat)
    requires |s.results| == |s.history| && i < |s.results| && Pass(cfg, w, s, l, offset).Some?
    requires Tracked(s, i) && Known(s, r1, i) && (l == Unparsed ==> 0 < offset <= r1)
    ensures var t := Pass(cfg, w, s, l, offset).value; |t.history| == |s.results| && Known(t, r1, i)
  {
    PassTracks(cfg, w, s, l, offset, i);
    PassGrowsFailed(cfg, w, s, l, offset);
    var t := Pass(cfg, w, s, l, offset).value;
    if Again(l, s.results[i]) {
      var a := AttemptOf(cfg, w, s, l, offset, i);
      if l == Unclear && Noted(a, r1) { LastDeathRecorded(cfg, w, s, offset, i); }
    } else {
      LeftAlone(cfg, w, s, l, offset, i);
    }
  }

  /** After a pass of the second loop the proxy under which an account's last try died is recorded. */
  lemma LastDeathRecorded(cfg: Config, w: World, s: Engine, offset: nat, i: nat)
    requires |s.results| == |s.history| && Pass(cfg, w, s, Unclear, offset).Some?
    requires var t := Pass(cfg, w, s, Unclear, offset).value; i < |t.results| && DiedUnder(t, i)
    ensures var t := Pass(cfg, w, s, Unclear, offset).value; t.lastProxy[i].value in t.failed
  {
    var idxs := RetryIdx(Unclear, s.results);
    RetryIdxAre(Unclear, s.results);
    var stored := Store(s, idxs, Tries(cfg, w, s.failed, idxs, offset).value);
    DiedAre(stored, |stored.results|);
  }

  lemma PassReusesNothing(cfg: Config, w: World, s: Engine, l: Loop, offset: nat, r1: nat, i: nat, j: nat)
    requires cfg.proxies != [] && Good(s, offset) && i < |s.results| && j < |s.results|
    requires Pass(cfg, w, s, l, offset).Some?
    requires Known(s, r1, i) && NotReused(s, r1, i, j)
    ensures var t := Pass(cfg, w, s, l, offset).value; |t.history| == |s.results| && NotReused(t, r1, i, j)
  {
    PassKeepsGood(cfg, w, s, l, offset);
    var t := Pass(cfg, w, s, l, offset).value;
    if Again(l, s.results[i]) {
      var _ := AttemptOf(cfg, w, s, l, offset, i);
    } else {
      LeftAlone(cfg, w, s, l, offset, i);
    }
    if Again(l, s.results[j]) {
      var a := AttemptOf(cfg, w, s, l, offset, j);
      TryAvoidsFailed(cfg, w, s.failed, j, offset);
    } else {
      LeftAlone(cfg, w, s, l, offset, j);
    }
    OffsetsBelow(t, offset, j);
    OffsetsBelow(t, offset, i);
  }

  lemma {:induction false} OffsetsBelow(t: Engine, offset: nat, i: nat)
    requires Good(t, offset + 1) && i < |t.results|
    ensures forall k :: 0 <= k < |t.history[i]| ==> t.history[i][k].offset <= offset
    ensures forall k :: 0 <= k < |t.history[i]| - 1 ==> t.history[i][k].offset < t.history[i][|t.history[i]| - 1].offset
  {
    var h := t.history[i];
    assert Sound(h, t.results[i]);
    var k := |h| - 1;
    while k > 0
      invariant 0 <= k < |h|
      invariant forall m :: k <= m < |h| - 1 ==> h[m].offset < h[|h| - 1].offset
    {
      assert h[k - 1].offset < h[k - 1 + 1].offset;
      k := k - 1;
    }
  }

  lemma {:induction false} LoopReusesNothing(cfg: Config, w: World, s: Engine, l: Loop, first: nat, times: nat, r1: nat,
                                             i: nat, j: nat)
    requires cfg.proxies != [] && Good(s, first) && i < |s.results| && j < |s.results|
    requires Passes(cfg, w, s, l, first, times).Some?
    requires l == Unparsed ==> 0 < first && first + times <= r1 + 1
    requires Tracked(s, i) && Known(s, r1, i) && NotReused(s, r1, i, j)
    ensures var t := Passes(cfg, w, s, l, first, times).value;
            |t.history| == |s.results| && Tracked(t, i) && Known(t, r1, i) && NotReused(t, r1, i, j)
    decreases times
  {
    if times > 0 && RetryIdx(l, s.results) != [] {
      PassKeepsGood(cfg, w, s, l, first);
      PassTracks(cfg, w, s, l, first, i);
      PassKnows(cfg, w, s, l, first, r1, i);
      PassReusesNothing(cfg, w, s, l, first, r1, i, j);
      LoopReusesNothing(cfg, w, Pass(cfg, w, s, l, first).value, l, first + 1, times - 1, r1, i, j);
    }
  }

  /** Over whole jobs with a pool: once a proxy has died under some account's first try, or under any try of
      the second loop, no account's later try uses it. */
  lemma DeadProxiesAreLeftAlone(cfg: Config, w: World, n: nat, r1: nat, r2: nat, i: nat, j: nat)
    requires Job(cfg, w, n, r1, r2).Some? && i < n && j < n && cfg.proxies != []
    ensures |Job(cfg, w, n, r1, r2).value.history| == n && NotReused(Job(cfg, w, n, r1, r2).value, r1, i, j)
  {
    var s, mid := First(cfg, w, n).value, AfterFirstLoop(cfg, w, n, r1).value;
    FirstKnows(cfg, w, n, r1, i, j);
    LoopReusesNothing(cfg, w, Recorded(s), Unparsed, 1, r1, r1, i, j);
    FirstLoopKeeps(cfg, w, n, r1, i);
    LoopReusesNothing(cfg, w, mid, Unclear, r1 + 1, r2, r1, i, j);
  }

  lemma FirstKnows(cfg: Config, w: World, n: nat, r1: nat, i: nat, j: nat)
    requires First(cfg, w, n).Some? && i < n && j < n
    ensures var s := Recorded(First(cfg, w, n).value);
      && Good(s, 1) && |s.results| == |s.history| == n
      && Tracked(s, i) && Known(s, r1, i) && NotReused(s, r1, i, j)
  {
    var s := First(cfg, w, n).value;
    FirstIsGood(cfg, w, n);
    RecordingKeepsGood(s, 1);
    FirstAttempts(cfg, w, n, i);
    FirstAttempts(cfg, w, n, j);
    TrySkips(cfg, w, {}, i, 0);
    RecordingKnows(s, r1, i);
  }

  // ---- Deaths in the first loop ----------------------------------------------------------

  /** Every proxy met before `p`, in circular order from `idx`, is marked dead or among `failed`. */
  ghost predicate NoneBefore(cfg: Config, failed: set<string>, idx: nat, p: string) {
    forall q: nat :: q < |cfg.proxies| && (forall r: nat :: r <= q ==> At(cfg, idx, r) != p)
                     ==> !Healthy(cfg, failed, At(cfg, idx, q))
  }

  /** A right pick is a given live proxy of the pool exactly if that is not recorded as failed and nothing
      healthy comes before it. */
  lemma PickedExactly(cfg: Config, failed: set<string>, idx: nat, p: string, used: Option<string>)
    requires p in cfg.proxies && p != "" && !cfg.dead(p) && RightPick(cfg, failed, idx, Use(used))
    ensures used == Some(p) <==> p !in failed && NoneBefore(cfg, failed, idx, p)
  {
    assert Fallback(cfg) != Use(Some(p));
    if used == Some(p) {
      var m: nat :| FirstHealthy(cfg, failed, idx, m) && At(cfg, idx, m) == p;
      forall q: nat | q < |cfg.proxies| && (forall r: nat :: r <= q ==> At(cfg, idx, r) != p)
        ensures !Healthy(cfg, failed, At(cfg, idx, q))
      {
        assert q < m;
      }
    } else if p !in failed {
      assert Healthy(cfg, failed, p);
      var m: nat :| FirstHealthy(cfg, failed, idx, m) && used == Some(At(cfg, idx, m));
      forall r: nat | r <= m ensures At(cfg, idx, r) != p { assert r < m ==> !Healthy(cfg, failed, At(cfg, idx, r)); }
      assert !NoneBefore(cfg, failed, idx, p);
    }
  }

  /** A proxy that a try used was live, and not recorded as failed then. */
  lemma UsedWasHealthy(cfg: Config, w: World, failed: set<string>, i: nat, offset: nat, d: Attempt)
    requires cfg.proxies != [] && Try(cfg, w, failed, i, offset) == Some(d) && !d.skipped && d.proxy.Some?
    ensures Healthy(cfg, failed, d.proxy.value) && d.proxy.value in cfg.proxies
  {
    TryPicks(cfg, w, failed, i, offset);
    assert Fallback(cfg) != Use(d.proxy);
  }

  /** Until the first pass of the second loop is over, the record is that of the first results. */
  lemma RecordUntilSecondLoop(cfg: Config, w: World, n: nat, r1: nat, r2: nat, o: nat)
    requires AfterFirstLoop(cfg, w, n, r1).Some? && 1 <= o <= r1 + 1
    ensures First(cfg, w, n).Some?
    ensures var s := First(cfg, w, n).value; RecordedAt(cfg, w, s, r1, r2, o) == Recorded(s).failed
  {
    RecordedIs(cfg, w, n, r1, r2, o);
    FirstLoopRecordsNothing(cfg, w, Recorded(First(cfg, w, n).value), 1, r1, 0);
  }

  /** The proxy of an attempt in the first loop, whether it died there or not, is used by a later attempt of
      any account exactly if it is not recorded by then and no healthy proxy comes before it; and up to the
      first pass of the second loop it is not recorded. */
  lemma FirstLoopDeathIsReusedExactly(cfg: Config, w: World, n: nat, r1: nat, r2: nat, i: nat, k: nat, j: nat, m: nat)
    requires cfg.proxies != [] && Job(cfg, w, n, r1, r2).Some? && i < n && j < n
    requires var h := Job(cfg, w, n, r1, r2).value.history;
      && k < |h[i]| && 1 <= h[i][k].offset <= r1 && !h[i][k].skipped && h[i][k].proxy.Some?
      && m < |h[j]| && h[i][k].offset < h[j][m].offset && !h[j][m].skipped
    ensures var h := Job(cfg, w, n, r1, r2).value.history;
            var p := h[i][k].proxy.value;
            var a := h[j][m];
            var failed := RecordedAt(cfg, w, First(cfg, w, n).value, r1, r2, a.offset);
      && (a.proxy == Some(p) <==> p !in failed && NoneBefore(cfg, failed, cfg.start(j) + a.offset, p))
      && (a.offset <= r1 + 1 ==> p !in failed)
  {
    var h := Job(cfg, w, n, r1, r2).value.history;
    var s := First(cfg, w, n).value;
    var d: Attempt, a: Attempt := h[i][k], h[j][m];
    EveryAttemptIsRight(cfg, w, n, r1, r2, i, k);
    UsedWasHealthy(cfg, w, RecordedAt(cfg, w, s, r1, r2, d.offset), i, d.offset, d);
    EveryAttemptIsRight(cfg, w, n, r1, r2, j, m);
    TryPicks(cfg, w, RecordedAt(cfg, w, s, r1, r2, a.offset), j, a.offset);
    PickedExactly(cfg, RecordedAt(cfg, w, s, r1, r2, a.offset), cfg.start(j) + a.offset, d.proxy.value, a.proxy);
    RecordUntilSecondLoop(cfg, w, n, r1, r2, d.offset);
    if a.offset <= r1 + 1 { RecordUntilSecondLoop(cfg, w, n, r1, r2, a.offset); }
  }

  lemma TriesOfOne(cfg: Config, w: World, failed: set<string>, i: nat, offset: nat)
    requires Try(cfg, w, failed, i, offset).Some?
    ensures Tries(cfg, w, failed, [i], offset) == Some([Try(cfg, w, failed, i, offset).value])
  {
    var none: seq<nat> := [];
    assert [i][..0] == none && Tries(cfg, w, failed, none, offset) == Some([]);
    assert [] + [Try(cfg, w, failed, i, offset).value] == [Try(cfg, w, failed, i, offset).value];
  }

  lemma StoreOfOne(s: Engine, a: Attempt)
    requires |s.results| == |s.history| == 1
    ensures Store(s, [0], [a]) == StoreOne(s, 0, a)
    ensures StoreOne(s, 0, a).results == [a.result] && StoreOne(s, 0, a).history == [s.history[0] + [a]]
  {
    var idxs: seq<nat>, tries := [0], [a];
    assert idxs[..0] == [] && tries[..0] == [];
    assert Store(s, idxs[..0], tries[..0]) == s;
    assert Store(s, idxs, tries) == StoreOne(Store(s, idxs[..0], tries[..0]), idxs[0], tries[0]);
  }

  lemma PassOfOne(cfg: Config, w: World, s: Engine, l: Loop, offset: nat)
    requires |s.results| == |s.history| == 1 && Again(l, s.results[0]) && Try(cfg, w, s.failed, 0, offset).Some?
    ensures RetryIdx(l, s.results) == [0] && Pass(cfg, w, s, l, offset).Some?
    ensures var a, t := Try(cfg, w, s.failed, 0, offset).value, Pass(cfg, w, s, l, offset).value;
      && t.results == [a.result] && t.history == [s.history[0] + [a]]
      && (l == Unparsed ==> t.failed == s.failed)
  {
    assert s.results[..0] == [];
    assert RetryIdx(l, []) == [];
    assert RetryIdx(l, s.results) == RetryIdx(l, []) + [0];
    TriesOfOne(cfg, w, s.failed, 0, offset);
    StoreOfOne(s, Try(cfg, w, s.failed, 0, offset).value);
  }

  lemma OnlyPick(cfg: Config, w: World, p: string, offset: nat)
    requires cfg.proxies == [p] && Live(cfg, p) && !w.massDead(0, offset)
    ensures Try(cfg, w, {}, 0, offset) == Some(Attempt(offset, false, Some(p), w.check(0, offset, Some(p))))
  {
    assert At(cfg, cfg.start(0) + offset, 0) == p;
  }

  lemma FirstOfOne(cfg: Config, w: World, p: string)
    requires cfg.proxies == [p] && Live(cfg, p) && !w.massDead(0, 0) && !ProxyDied(w.check(0, 0, Some(p)))
    ensures First(cfg, w, 1).Some?
    ensures var a := Attempt(0, false, Some(p), w.check(0, 0, Some(p)));
            var s := First(cfg, w, 1).value;
            s.results == [a.result] && s.history == [[a]] && Recorded(s).failed == {}
  {
    OnlyPick(cfg, w, p, 0);
    TriesOfOne(cfg, w, {}, 0, 0);
    assert UpTo(1) == [0];
    var s := First(cfg, w, 1).value;
    assert Died(s, 1) == Died(s, 0) + {};
  }

  /** A job with one account, one proxy and one pass per loop: the tool gives no answer, then says that the
      proxy died, and the third try goes through the dead proxy again. */
  lemma OnlyProxyIsReused(cfg: Config, w: World, p: string)
    requires cfg.proxies == [p] && Live(cfg, p)
    requires forall offset: nat :: !w.massDead(0, offset)
    requires w.check(0, 0, Some(p)).parsed == None
    requires ProxyDied(w.check(0, 1, Some(p))) && Ambiguous(w.check(0, 1, Some(p)))
    ensures var job := Job(cfg, w, 1, 1, 1);
            job.Some? && |job.value.history| == 1 && |job.value.history[0]| == 3
            && job.value.history[0][1].proxy == job.value.history[0][2].proxy == Some(p)
            && ProxyDied(job.value.history[0][1].result)
  {
    FirstOfOne(cfg, w, p);
    OnlyPick(cfg, w, p, 1);
    OnlyPick(cfg, w, p, 2);
    var s := Recorded(First(cfg, w, 1).value);
    PassOfOne(cfg, w, s, Unparsed, 1);
    var t := Pass(cfg, w, s, Unparsed, 1).value;
    OneTurn(cfg, w, s, Unparsed, 1);
    PassOfOne(cfg, w, t, Unclear, 2);
    OneTurn(cfg, w, t, Unclear, 2);
  }

  lemma OneTurn(cfg: Config, w: World, s: Engine, l: Loop, first: nat)
    requires |s.results| == |s.history| && RetryIdx(l, s.results) != []
    ensures Passes(cfg, w, s, l, first, 1) == Pass(cfg, w, s, l, first)
  {
    RetryIdxAre(l, s.results);
    if Pass(cfg, w, s, l, first).Some? {
      var t := Pass(cfg, w, s, l, first).value;
      assert Passes(cfg, w, t, l, first + 1, 0) == Some(t);
    }
  }

  // ---- Dead marks ------------------------------------------------------------------------

  /** If the snapshot of a job is taken from the dead marks, no attempt uses a proxy whose host and port are
      marked, however the proxy is written. */
  lemma MarkedHostIsNeverUsed(cfg: Config, marks: set<string>, w: World, n: nat, r1: nat, r2: nat, i: nat, k: nat)
    requires cfg.dead == DeadIn(marks) && cfg.proxies != []
    requires Job(cfg, w, n, r1, r2).Some? && i < n && k < |Job(cfg, w, n, r1, r2).value.history[i]|
    ensures var a := Job(cfg, w, n, r1, r2).value.history[i][k];
            !a.skipped && a.proxy.Some? && HostPortOf(a.proxy.value).Some? ==> HostPortOf(a.proxy.value).value !in marks
  {
    EveryAttemptIsRight(cfg, w, n, r1, r2, i, k);
    var a := Job(cfg, w, n, r1, r2).value.history[i][k];
    TryPicks(cfg, w, RecordedAt(cfg, w, First(cfg, w, n).value, r1, r2, a.offset), i, a.offset);
  }

  datatype Turned = Through | Aborted | Passed

  ghost predicate OnePass(cfg: Config, w: World, s: Engine, t: Engine, l: Loop, offset: nat) {
    && |s.results| == |s.history| && |t.results| == |t.history|
    && RetryIdx(l, s.results) != [] && Pass(cfg, w, s, l, offset) == Some(t)
  }

  ghost predicate Aborts(cfg: Config, w: World, s: Engine, l: Loop, offset: nat) {
    |s.results| == |s.history| && RetryIdx(l, s.results) != [] && Pass(cfg, w, s, l, offset) == None
  }

  /** Each state of the trace is one pass after the one before it. */
  ghost predicate Traced(cfg: Config, w: World, trace: seq<Engine>, l: Loop, first: nat) {
    && trace != [] && |trace[0].results| == |trace[0].history|
    && forall k :: 0 <= k < |trace| - 1 ==> OnePass(cfg, w, trace[k], trace[k + 1], l, first + k)
  }

  /** A trace of passes that ends as a loop ends is that loop. */
  lemma {:induction false} TraceEnds(cfg: Config, w: World, trace: seq<Engine>, l: Loop, first: nat, times: nat,
                                     turn: Turned)
    requires Traced(cfg, w, trace, l, first) && |trace| <= times + 1
    requires var last := trace[|trace| - 1];
      && (turn == Through ==> |trace| == times + 1 || RetryIdx(l, last.results) == [])
      && (turn == Aborted ==> |trace| <= times && Aborts(cfg, w, last, l, first + |trace| - 1))
      && turn != Passed
    ensures Passes(cfg, w, trace[0], l, first, times) == if turn == Through then Some(trace[|trace| - 1]) else None
    decreases |trace|
  {
    if |trace| > 1 {
      var rest := trace[1..];
      assert OnePass(cfg, w, trace[0], trace[1], l, first + 0);
      forall k | 0 <= k < |rest| - 1 ensures OnePass(cfg, w, rest[k], rest[k + 1], l, first + 1 + k) {
        assert OnePass(cfg, w, trace[k + 1], trace[k + 1 + 1], l, first + (k + 1));
      }
      TraceEnds(cfg, w, rest, l, first + 1, times - 1, turn);
    }
  }

  // ---- The job ---------------------------------------------------------------------------

  class CheckJob {
    const cfg: Config
    const world: World
    var results: seq<Result>
    var lastProxy: map<nat, Option<string>>
    var failed: set<string>
    ghost var history: seq<seq<Attempt>>

    constructor (cfg: Config, world: World)
      ensures this.cfg == cfg && this.world == world && View() == Engine([], map[], {}, [])
    {
      this.cfg, this.world, results, lastProxy, failed, history := cfg, world, [], map[], {}, [];
    }

    ghost function View(): Engine
      reads this
    {
      Engine(results, lastProxy, failed, history)
    }

    /** All tries of one pass (see the bounded parallel map: the results come back in order). */
    method TryAll(idxs: seq<nat>, offset: nat) returns (tries: Option<seq<Attempt>>)
      ensures tries == Tries(cfg, world, failed, idxs, offset)
    {
      var done: seq<Attempt> := [];
      for k := 0 to |idxs|
        invariant Tries(cfg, world, failed, idxs[..k], offset) == Some(done)
      {
        assert idxs[..k + 1][..k] == idxs[..k];
        if world.massDead(idxs[k], offset) {
          done := done + [Attempt(offset, true, None, SKIPPED)];
        } else {
          var pick := PickHealthyProxy(cfg, failed, if cfg.proxies == [] then 0 else cfg.start(idxs[k]) + offset);
          if pick == Abort {
            AbortedTries(cfg, world, failed, idxs, offset, k);
            return None;
          }
          done := done + [Attempt(offset, false, pick.proxy, world.check(idxs[k], offset, pick.proxy))];
        }
      }
      assert idxs[..|idxs|] == idxs;
      tries := Some(done);
    }

    /** Counts the live proxies of the pool. */
    method CountLive() returns (live: nat)
      ensures live > 0 <==> exists p :: p in cfg.proxies && Live(cfg, p)
    {
      live := 0;
      for k := 0 to |cfg.proxies|
        invariant live > 0 <==> exists p :: p in cfg.proxies[..k] && Live(cfg, p)
      {
        assert cfg.proxies[..k + 1] == cfg.proxies[..k] + [cfg.proxies[k]];
        assert cfg.proxies[k] in cfg.proxies[..k + 1];
        if Live(cfg, cfg.proxies[k]) { live := live + 1; }
      }
      assert cfg.proxies[..|cfg.proxies|] == cfg.proxies;
    }

    /** The first try of every account; false if the job has to be aborted. */
    method RunFirst(n: nat) returns (ok: bool)
      requires View() == Engine([], map[], {}, [])
      modifies this
      ensures |results| == |history|
      ensures First(cfg, world, n) == if ok then Some(View()) else None
    {
      var live := CountLive();
      if cfg.requireProxy && live == 0 && (cfg.jobProxy == None || cfg.jobProxy.value == "") { return false; }
      var tries := TryAll(UpTo(n), 0);
      if tries == None { return false; }
      var first := tries.value;
      results := seq(|first|, i requires 0 <= i < |first| => first[i].result);
      history := seq(|first|, i requires 0 <= i < |first| => [first[i]]);
      lastProxy := map i: nat | i < |first| && !first[i].skipped :: first[i].proxy;
      ok := true;
    }

    method StoreAll(idxs: seq<nat>, tries: seq<Attempt>)
      requires Within(View(), idxs) && |idxs| == |tries|
      modifies this
      ensures View() == Store(old(View()), idxs, tries)
    {
      for k := 0 to |idxs|
        invariant |results| == |history| == |old(results)|
        invariant View() == Store(old(View()), idxs[..k], tries[..k])
      {
        assert idxs[..k + 1][..k] == idxs[..k] && tries[..k + 1][..k] == tries[..k];
        var i, a := idxs[k], tries[k];
        results := results[i := a.result];
        if !a.skipped { lastProxy := lastProxy[i := a.proxy]; }
        history := history[i := history[i] + [a]];
      }
      assert idxs[..|idxs|] == idxs && tries[..|tries|] == tries;
    }

    method RecordFailed()
      requires |results| == |history|
      modifies this`failed
      ensures View() == Recorded(old(View()))
    {
      ghost var s := View();
      for i := 0 to |results|
        invariant failed == s.failed + Died(s, i)
      {
        if ProxyDied(results[i]) && i in lastProxy && lastProxy[i].Some? && lastProxy[i].value != "" {
          failed := failed + {lastProxy[i].value};
        }
      }
    }

    /** The accounts that a loop runs again. */
    method Collect(l: Loop) returns (retryIdx: seq<nat>)
      ensures retryIdx == RetryIdx(l, results)
    {
      retryIdx := [];
      for i := 0 to |results|
        invariant retryIdx == RetryIdx(l, results[..i])
      {
        assert results[..i + 1][..i] == results[..i];
        if Again(l, results[i]) { retryIdx := retryIdx + [i]; }
      }
      assert results[..|results|] == results;
    }

    /** One pass over some accounts; false if the job has to be aborted. */
    method RunPass(l: Loop, retryIdx: seq<nat>, offset: nat) returns (ok: bool)
      requires |results| == |history| && retryIdx == RetryIdx(l, results)
      modifies this
      ensures |results| == |history|
      ensures Pass(cfg, world, old(View()), l, offset) == if ok then Some(View()) else None
    {
      RetryIdxAre(l, results);
      var tries := TryAll(retryIdx, offset);
      if tries == None { return false; }
      StoreAll(retryIdx, tries.value);
      if l == Unclear { RecordFailed(); }
      ok := true;
    }

    /** One turn of a loop: nothing left to run again, an abort, or one pass done. */
    method Turn(l: Loop, offset: nat) returns (turn: Turned)
      requires |results| == |history|
      modifies this
      ensures |results| == |history|
      ensures turn != Aborted || Aborts(cfg, world, old(View()), l, offset)
      ensures turn == Through ==> View() == old(View()) && RetryIdx(l, results) == []
      ensures turn == Passed ==> OnePass(cfg, world, old(View()), View(), l, offset)
    {
      var retryIdx := Collect(l);
      if retryIdx == [] { return Through; }
      var ok := RunPass(l, retryIdx, offset);
      return if ok then Passed else Aborted;
    }

    /** One of the two loops; false if the job has to be aborted. */
    method RunLoop(l: Loop, first: nat, times: nat) returns (ok: bool)
      requires |results| == |history|
      modifies this
      ensures |results| == |history|
      ensures Passes(cfg, world, old(View()), l, first, times) == if ok then Some(View()) else None
    {
      ghost var trace := [View()];
      for pass := 0 to times
        invariant |results| == |history|
        invariant |trace| == pass + 1 && trace[0] == old(View()) && trace[pass] == View()
        invariant Traced(cfg, world, trace, l, first)
      {
        var turn := Turn(l, first + pass);
        if turn != Passed {
          TraceEnds(cfg, world, trace, l, first, times, turn);
          return turn == Through;
        }
        trace := trace + [View()];
      }
      TraceEnds(cfg, world, trace, l, first, times, Through);
      ok := true;
    }

    /** Everything after the first results. */
    method RetryAll(r1: nat, r2: nat) returns (ok: bool)
      requires |results| == |history|
      modifies this
      ensures Retried(cfg, world, old(View()), r1, r2) == if ok then Some(View()) else None
    {
      RecordFailed();
      ok := RunLoop(Unparsed, 1, r1);
      if ok { ok := RunLoop(Unclear, r1 + 1, r2); }
    }

    /** The job from its first try on. */
    method RunJob(n: nat, r1: nat, r2: nat) returns (ok: bool)
      requires View() == Engine([], map[], {}, [])
      modifies this
      ensures Job(cfg, world, n, r1, r2) == if ok then Some(View()) else None
    {
      ok := RunFirst(n);
      if ok { ok := RetryAll(r1, r2); }
    }
  }

  lemma {:induction false} AbortedTries(cfg: Config, w: World, failed: set<string>, idxs: seq<nat>, offset: nat, k: nat)
    requires k < |idxs| && Try(cfg, w, failed, idxs[k], offset) == None
    ensures Tries(cfg, w, failed, idxs, offset) == None
    decreases |idxs|
  {
    var n := |idxs| - 1;
    if k < n {
      assert idxs[..n][k] == idxs[k];
      AbortedTries(cfg, w, failed, idxs[..n], offset, k);
    }
  }
}
