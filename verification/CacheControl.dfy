/** The rules of cache.config. Each rule names a destination and a directive; the answer for a request is
    meant to come from the first line of the file that matches. `CacheRules` is what one rule does to the
    result, for rules visited in any order. */
module CacheRules {

  datatype Option<T> = None | Some(value: T)

  datatype Directive =
    | RevalidateAfter | NeverCache | StandardCache | IgnoreNoCache | ClusterCacheLocal
    | IgnoreClientNoCache | IgnoreServerNoCache | PinInCache | TtlInCache

  datatype Destination =
    | Host(name: string) | Domain(name: string)
    | Regex(pattern: string) | Url(url: string) | Ip(lo: nat, hi: nat) | HostRegex(pattern: string)

  /** `cookies` is the rule's override for cached responses to cookies, negative if it has none. */
  datatype Rule = Rule(line: nat, dest: Destination, directive: Directive, arg: int, cookies: int)

  /** A part of the answer, and the line it comes from (-1: none yet). */
  datatype Setting<T> = Setting(value: T, line: int)

  datatype Result = Result(
    revalidate: Setting<int>, pin: Setting<int>, ttl: Setting<int>, never: Setting<bool>,
    local: Setting<bool>, ignoreClient: Setting<bool>, ignoreServer: Setting<bool>, cookies: int)

  const TIME_UNSET := Setting(-1, -1)
  const FLAG_UNSET := Setting(false, -1)
  const UNSET := Result(TIME_UNSET, TIME_UNSET, TIME_UNSET, FLAG_UNSET, FLAG_UNSET, FLAG_UNSET, FLAG_UNSET, -1)

  /** An earlier line wins; `passes` says whether the rule's modifiers accept the request. */
  predicate CheckForMatch(rule: Rule, passes: bool, last: int) {
    (last < 0 || last > rule.line) && passes
  }

  function Assign<T>(s: Setting<T>, rule: Rule, passes: bool, value: T): Setting<T> {
    if CheckForMatch(rule, passes, s.line) then Setting(value, rule.line) else s
  }

  function Directed(res: Result, rule: Rule, passes: bool): Result {
    match rule.directive
    case RevalidateAfter => res.(revalidate := Assign(res.revalidate, rule, passes, rule.arg))
    case NeverCache => res.(never := Assign(res.never, rule, passes, true))
    case StandardCache => res.(never := Assign(res.never, rule, passes, false))
    case IgnoreNoCache =>
      res.(ignoreClient := Assign(res.ignoreClient, rule, passes, true),
           ignoreServer := Assign(res.ignoreServer, rule, passes, true))
    case IgnoreClientNoCache => res.(ignoreClient := Assign(res.ignoreClient, rule, passes, true))
    case IgnoreServerNoCache => res.(ignoreServer := Assign(res.ignoreServer, rule, passes, true))
    case ClusterCacheLocal => res.(local := Assign(res.local, rule, passes, true))
    case PinInCache => res.(pin := Assign(res.pin, rule, passes, rule.arg))
    case TtlInCache =>
      if CheckForMatch(rule, passes, res.ttl.line)
      then res.(ttl := Setting(rule.arg, rule.line), never := Setting(false, rule.line))
      else res
  }

  /** The cookie override is taken without any test. */
  function Update(res: Result, rule: Rule, passes: bool): Result {
    var r := Directed(res, rule, passes);
    if rule.cookies >= 0 then r.(cookies := rule.cookies) else r
  }

  /** The rules of `visit`, one after the other. */
  function Fold(visit: seq<Rule>, passes: Rule -> bool, res: Result): Result {
    if visit == [] then res
    else
      var last := visit[|visit| - 1];
      Update(Fold(visit[..|visit| - 1], passes, res), last, passes(last))
  }

  // ----- the first match

  datatype Field = Revalidate | Pin | Ttl | Never | Local | IgnoreClient | IgnoreServer

  predicate Wants(f: Field, d: Directive) {
    match f
    case Revalidate => d.RevalidateAfter?
    case Pin => d.PinInCache?
    case Ttl => d.TtlInCache?
    case Never => d.NeverCache? || d.StandardCache?
    case Local => d.ClusterCacheLocal?
    case IgnoreClient => d.IgnoreClientNoCache? || d.IgnoreNoCache?
    case IgnoreServer => d.IgnoreServerNoCache? || d.IgnoreNoCache?
  }

  function One(b: bool): int {
    if b then 1 else 0
  }

  function Get(res: Result, f: Field): Setting<int> {
    match f
    case Revalidate => res.revalidate
    case Pin => res.pin
    case Ttl => res.ttl
    case Never => Setting(One(res.never.value), res.never.line)
    case Local => Setting(One(res.local.value), res.local.line)
    case IgnoreClient => Setting(One(res.ignoreClient.value), res.ignoreClient.line)
    case IgnoreServer => Setting(One(res.ignoreServer.value), res.ignoreServer.line)
  }

  /** The answer that one rule gives, or its absence. */
  function Answer(f: Field, r: Option<Rule>): Setting<int> {
    match r
    case None => Setting(if f.Revalidate? || f.Pin? || f.Ttl? then -1 else 0, -1)
    case Some(rule) =>
      Setting(match f
              case Revalidate => rule.arg
              case Pin => rule.arg
              case Ttl => rule.arg
              case Never => One(rule.directive.NeverCache?)
              case Local => 1
              case IgnoreClient => 1
              case IgnoreServer => 1, rule.line)
  }

  predicate Speaks(rule: Rule, passes: Rule -> bool, f: Field) {
    passes(rule) && Wants(f, rule.directive)
  }

  /** Of the visited rules that speak on f, the one on the lowest line. */
  ghost predicate IsFirst(visit: seq<Rule>, passes: Rule -> bool, f: Field, r: Option<Rule>) {
    match r
    case None => forall x :: x in visit ==> !Speaks(x, passes, f)
    case Some(rule) =>
      && rule in visit && Speaks(rule, passes, f)
      && forall x :: x in visit && Speaks(x, passes, f) ==> rule.line <= x.line
  }

  ghost predicate NoTtl(visit: seq<Rule>, passes: Rule -> bool) {
    forall x :: x in visit ==> !Speaks(x, passes, Ttl)
  }

  lemma UpdateOne(res: Result, rule: Rule, passes: bool, f: Field)
    requires f != Never || !(passes && rule.directive.TtlInCache?)
    ensures Get(Update(res, rule, passes), f)
            == if Wants(f, rule.directive) && CheckForMatch(rule, passes, Get(res, f).line)
               then Answer(f, Some(rule)) else Get(res, f)
  {
  }

  /** Whatever the order of the visit, each part of the answer is that of the lowest matching line. */
  lemma {:induction false} FoldIsFirst(visit: seq<Rule>, passes: Rule -> bool, f: Field) returns (r: Option<Rule>)
    requires f != Never || NoTtl(visit, passes)
    ensures IsFirst(visit, passes, f, r) && Get(Fold(visit, passes, UNSET), f) == Answer(f, r)
  {
    if visit == [] {
      r := None;
    } else {
      var n := |visit| - 1;
      var last := visit[n];
      var b := FoldIsFirst(visit[..n], passes, f);
      assert visit == visit[..n] + [last];
      assert f == Never ==> !Speaks(last, passes, Ttl);
      UpdateOne(Fold(visit[..n], passes, UNSET), last, passes(last), f);
      r := if Speaks(last, passes, f) && (b.None? || last.line < b.value.line) then Some(last) else b;
    }
  }

  /** The last visited rule that has an override decides on cookies, matching or not. */
  lemma {:induction false} CookiesOfLastVisited(visit: seq<Rule>, passes: Rule -> bool, i: nat)
    requires i < |visit| && visit[i].cookies >= 0
    requires forall j :: i < j < |visit| ==> visit[j].cookies < 0
    ensures Fold(visit, passes, UNSET).cookies == visit[i].cookies
  {
    if i < |visit| - 1 {
      CookiesOfLastVisited(visit[..|visit| - 1], passes, i);
    }
  }

  // ----- never-cache beside ttl-in-cache

  predicate NeverBefore(visit: seq<Rule>, passes: Rule -> bool, line: nat) {
    exists n | n in visit :: passes(n) && n.directive.NeverCache? && n.line < line
  }

  function NeverAfter(visit: seq<Rule>, passes: Rule -> bool): bool {
    Fold(visit, passes, UNSET).never.value
  }

  ghost predicate Permutes(v: seq<Rule>, w: seq<Rule>) {
    multiset(v) == multiset(w)
  }

  ghost predicate OrderFree(visit: seq<Rule>, passes: Rule -> bool) {
    forall v, w :: Permutes(v, visit) && Permutes(w, visit) ==> NeverAfter(v, passes) == NeverAfter(w, passes)
  }

  /** Once the first ttl line is visited, never-cache stays off unless a never-cache line precedes it. */
  lemma {:induction false} TtlSilencesNever(visit: seq<Rule>, passes: Rule -> bool, line: nat)
    requires forall x :: x in visit && Speaks(x, passes, Ttl) ==> line <= x.line
    requires !NeverBefore(visit, passes, line)
    ensures var res := Fold(visit, passes, UNSET);
            && (res.ttl.line < 0 || line <= res.ttl.line)
            && (res.ttl.line == line ==> !res.never.value && 0 <= res.never.line <= line)
  {
    if visit != [] {
      var n := |visit| - 1;
      var last := visit[n];
      assert forall x :: x in visit[..n] ==> x in visit;
      TtlSilencesNever(visit[..n], passes, line);
      assert Speaks(last, passes, Ttl) ==> line <= last.line;
      assert last in visit && (passes(last) && last.directive.NeverCache? ==> line <= last.line);
    }
  }

  function Part(visit: seq<Rule>, ttl: bool): seq<Rule> {
    if visit == [] then []
    else
      var last := visit[|visit| - 1];
      Part(visit[..|visit| - 1], ttl) + if last.directive.TtlInCache? == ttl then [last] else []
  }

  lemma {:induction false} PartsPermute(visit: seq<Rule>)
    ensures Permutes(Part(visit, false) + Part(visit, true), visit)
  {
    if visit != [] {
      var n := |visit| - 1;
      PartsPermute(visit[..n]);
      assert visit == visit[..n] + [visit[n]];
      assert Part(visit, visit[n].directive.TtlInCache?) ==
             Part(visit[..n], visit[n].directive.TtlInCache?) + [visit[n]];
      assert Part(visit, !visit[n].directive.TtlInCache?) == Part(visit[..n], !visit[n].directive.TtlInCache?);
    }
  }

  lemma {:induction false} PartHas(visit: seq<Rule>, ttl: bool, x: Rule)
    ensures x in Part(visit, ttl) <==> x in visit && x.directive.TtlInCache? == ttl
  {
    if visit != [] {
      var n := |visit| - 1;
      PartHas(visit[..n], ttl, x);
      assert visit == visit[..n] + [visit[n]];
    }
  }

  lemma PartsHave(visit: seq<Rule>)
    ensures forall x :: x in Part(visit, false) <==> x in visit && !x.directive.TtlInCache?
    ensures forall x :: x in Part(visit, true) <==> x in visit && x.directive.TtlInCache?
  {
  }

  /** When the ttl rules come last, never-cache is off, and on record for the first ttl line. */
  lemma {:induction false} TtlLast(pre: seq<Rule>, ts: seq<Rule>, passes: Rule -> bool)
    requires NoTtl(pre, passes) && forall x :: x in ts ==> x.directive.TtlInCache?
    ensures var res := Fold(pre + ts, passes, UNSET); res.ttl.line >= 0 ==> res.never == Setting(false, res.ttl.line)
  {
    if ts == [] {
      assert pre + ts == pre;
      var r := FoldIsFirst(pre, passes, Ttl);
    } else {
      var n := |ts| - 1;
      assert (pre + ts)[..|pre + ts| - 1] == pre + ts[..n];
      TtlLast(pre, ts[..n], passes);
    }
  }

  lemma OrderMatters(visit: seq<Rule>, passes: Rule -> bool, t: Rule, n: Rule)
    requires IsFirst(visit, passes, Ttl, Some(t))
    requires n in visit && passes(n) && n.directive.NeverCache? && n.line < t.line
    ensures !OrderFree(visit, passes)
  {
    PartsHave(visit);
    PartsPermute(visit);
    var i :| 0 <= i < |Part(visit, false)| && Part(visit, false)[i] == n;
    NeverLastWins(visit, passes, t, Part(visit, false), Part(visit, true), i);
  }

  lemma NeverLastWins(visit: seq<Rule>, passes: Rule -> bool, t: Rule, others: seq<Rule>, ts: seq<Rule>, i: nat)
    requires IsFirst(visit, passes, Ttl, Some(t)) && Permutes(others + ts, visit)
    requires forall x :: x in others ==> !x.directive.TtlInCache?
    requires forall x :: x in ts <==> x in visit && x.directive.TtlInCache?
    requires i < |others| && passes(others[i]) && others[i].directive.NeverCache? && others[i].line < t.line
    ensures !OrderFree(visit, passes)
  {
    var rest := others[..i] + others[i + 1..];
    FirstOfTtl(visit, passes, t, others, ts);
    FirstOfTtl(visit, passes, t, rest, ts);
    NeverLast(rest + ts, passes, others[i], t.line);
    MoveLast(others, ts, i);
    assert NeverAfter(others + ts, passes) != NeverAfter(rest + ts + [others[i]], passes);
  }

  lemma NeverLast(visit: seq<Rule>, passes: Rule -> bool, n: Rule, line: nat)
    requires passes(n) && n.directive.NeverCache? && n.line < line &&
             Fold(visit, passes, UNSET).never == Setting(false, line)
    ensures NeverAfter(visit + [n], passes)
  {
  }

  lemma MoveLast(a: seq<Rule>, b: seq<Rule>, i: nat)
    requires i < |a|
    ensures Permutes(a[..i] + a[i + 1..] + b + [a[i]], a + b)
  {
    assert a == a[..i] + [a[i]] + a[i + 1..];
    assert multiset(a) == multiset(a[..i]) + multiset{a[i]} + multiset(a[i + 1..]);
  }

  lemma FirstOfTtl(visit: seq<Rule>, passes: Rule -> bool, t: Rule, pre: seq<Rule>, ts: seq<Rule>)
    requires IsFirst(visit, passes, Ttl, Some(t))
    requires forall x :: x in pre ==> !x.directive.TtlInCache?
    requires forall x :: x in ts <==> x in visit && x.directive.TtlInCache?
    ensures Fold(pre + ts, passes, UNSET).never == Setting(false, t.line)
  {
    TtlLast(pre, ts, passes);
    var r := FoldIsFirst(pre + ts, passes, Ttl);
    assert t in pre + ts;
  }

  lemma PermutesHas(v: seq<Rule>, w: seq<Rule>)
    requires Permutes(v, w)
    ensures forall x :: x in v <==> x in w
  {
    assert forall x :: x in v <==> x in multiset(v);
    assert forall x :: x in w <==> x in multiset(w);
  }

  /** Beside a matching ttl rule, the visiting order does not decide on never-cache if and only if no
      matching never-cache line precedes the first matching ttl line; never-cache is then off. */
  lemma NeverCacheOrder(visit: seq<Rule>, passes: Rule -> bool, t: Rule)
    requires IsFirst(visit, passes, Ttl, Some(t))
    ensures OrderFree(visit, passes) <==> !NeverBefore(visit, passes, t.line)
    ensures !NeverBefore(visit, passes, t.line) ==> !NeverAfter(visit, passes)
  {
    if NeverBefore(visit, passes, t.line) {
      var n :| n in visit && passes(n) && n.directive.NeverCache? && n.line < t.line;
      OrderMatters(visit, passes, t, n);
    } else {
      forall v | Permutes(v, visit)
        ensures !NeverAfter(v, passes)
      {
        PermutesHas(v, visit);
        TtlSilencesNever(v, passes, t.line);
        var r := FoldIsFirst(v, passes, Ttl);
      }
      assert Permutes(visit, visit);
    }
  }

  // ----- never-cache for a given order

  /** The first visit of the lowest line whose ttl rule passes. */
  ghost predicate FirstTtlAt(visit: seq<Rule>, passes: Rule -> bool, p: nat) {
    && p < |visit| && Speaks(visit[p], passes, Ttl)
    && (forall i :: 0 <= i < p && Speaks(visit[i], passes, Ttl) ==> visit[p].line < visit[i].line)
    && (forall i :: p < i < |visit| && Speaks(visit[i], passes, Ttl) ==> visit[p].line <= visit[i].line)
  }

  lemma LeastTtl(visit: seq<Rule>, passes: Rule -> bool, t: Rule, i: nat) returns (p: nat)
    requires IsFirst(visit, passes, Ttl, Some(t)) && i < |visit|
    requires Speaks(visit[i], passes, Ttl) && visit[i].line == t.line
    ensures FirstTtlAt(visit, passes, p) && visit[p].line == t.line
    decreases i
  {
    assert forall j :: 0 <= j < |visit| ==> visit[j] in visit;
    if j :| 0 <= j < i && Speaks(visit[j], passes, Ttl) && visit[j].line == t.line {
      p := LeastTtl(visit, passes, t, j);
    } else {
      p := i;
    }
  }

  /** Of the rules that speak on never-cache and stand before the line, the one on the lowest line. */
  ghost predicate IsFirstBelow(visit: seq<Rule>, passes: Rule -> bool, line: nat, r: Option<Rule>) {
    match r
    case None => forall x :: x in visit && Speaks(x, passes, Never) ==> line <= x.line
    case Some(rule) =>
      && rule in visit && Speaks(rule, passes, Never) && rule.line < line
      && forall x :: x in visit && Speaks(x, passes, Never) ==> rule.line <= x.line
  }

  function NeverOr(r: Option<Rule>, line: nat): Setting<int> {
    if r.None? then Setting(0, line) else Answer(Never, r)
  }

  /** Beside ttl rules the answer is that of the lowest never- or standard-cache line among those that are
      visited after the lowest ttl line and stand before it; without one, never-cache is off. */
  lemma {:induction false} NeverBesideTtl(visit: seq<Rule>, passes: Rule -> bool, p: nat) returns (r: Option<Rule>)
    requires FirstTtlAt(visit, passes, p)
    ensures IsFirstBelow(visit[p + 1..], passes, visit[p].line, r)
    ensures var res := Fold(visit, passes, UNSET);
            res.ttl.line == visit[p].line && Get(res, Never) == NeverOr(r, visit[p].line)
  {
    var n := |visit| - 1;
    var last := visit[n];
    if p == n {
      r := None;
      var t := FoldIsFirst(visit[..n], passes, Ttl);
    } else {
      var b := NeverBesideTtl(visit[..n], passes, p);
      assert visit[p + 1..] == visit[..n][p + 1..] + [last];
      r := NeverStep(Fold(visit[..n], passes, UNSET), visit[..n][p + 1..], passes, visit[p].line, b, last);
    }
  }

  /** One more rule, with ttl settled. */
  lemma NeverStep(res: Result, rest: seq<Rule>, passes: Rule -> bool, line: nat, b: Option<Rule>, last: Rule)
    returns (r: Option<Rule>)
    requires IsFirstBelow(rest, passes, line, b) && res.ttl.line == line && Get(res, Never) == NeverOr(b, line)
    requires Speaks(last, passes, Ttl) ==> line <= last.line
    ensures IsFirstBelow(rest + [last], passes, line, r)
    ensures var res' := Update(res, last, passes(last)); res'.ttl.line == line && Get(res', Never) == NeverOr(r, line)
  {
    var lower := Speaks(last, passes, Never) && last.line < (if b.None? then line else b.value.line);
    r := if lower then Some(last) else b;
  }
}

/** The tables that the rules are scattered over, and the object that a request's answer is built in. */
module RuleTables {
  import opened CacheRules

  /** What a request looks like to the tables: the pcre results of its URL and its host, its address,
      which host rules the host tree finds and in which order, and which rules' modifiers accept it. */
  datatype Request = Request(
    url: string, ip: nat, urlRegex: string -> int, hostRegex: string -> int,
    hostHit: Rule -> bool, hostOrder: seq<Rule> -> seq<Rule>, passes: Rule -> bool)

  /** The host tree delivers the matching rules of its table, in some order. */
  ghost predicate HostTreeDelivers(q: Request) {
    forall table, r :: Delivered(q, table, r)
  }

  ghost predicate Delivered(q: Request, table: seq<Rule>, r: Rule) {
    r in q.hostOrder(table) <==> r in table && q.hostHit(r)
  }

  datatype Tables = Tables(host: seq<Rule>, regex: seq<Rule>, url: map<string, Rule>, ip: seq<Rule>,
                           hostRegex: seq<Rule>)

  const EMPTY := Tables([], [], map[], [], [])

  /** A second rule for the same URL is rejected. */
  function AddEntry(t: Tables, r: Rule): Tables {
    match r.dest
    case Host(_) => t.(host := t.host + [r])
    case Domain(_) => t.(host := t.host + [r])
    case Regex(_) => t.(regex := t.regex + [r])
    case Url(u) => if u in t.url then t else t.(url := t.url[u := r])
    case Ip(_, _) => t.(ip := t.ip + [r])
    case HostRegex(_) => t.(hostRegex := t.hostRegex + [r])
  }

  function Build(file: seq<Rule>): Tables {
    if file == [] then EMPTY else AddEntry(Build(file[..|file| - 1]), file[|file| - 1])
  }

  /** Any pcre result but "no match" counts in the host table, an error included; in the URL table only a
      match does. */
  predicate Hits(q: Request, r: Rule) {
    match r.dest
    case Host(_) => q.hostHit(r)
    case Domain(_) => q.hostHit(r)
    case Regex(p) => q.urlRegex(p) > -1
    case Url(u) => u == q.url
    case Ip(lo, hi) => lo <= q.ip <= hi
    case HostRegex(p) => q.hostRegex(p) != -1
  }

  function Hitting(q: Request, rules: seq<Rule>): seq<Rule> {
    if rules == [] then []
    else
      var last := rules[|rules| - 1];
      Hitting(q, rules[..|rules| - 1]) + if Hits(q, last) then [last] else []
  }

  /** Marking a range overwrites what was there. */
  function LastHit(q: Request, rules: seq<Rule>): seq<Rule> {
    if rules == [] then []
    else if Hits(q, rules[|rules| - 1]) then [rules[|rules| - 1]]
    else LastHit(q, rules[..|rules| - 1])
  }

  function UrlHit(q: Request, table: map<string, Rule>): seq<Rule> {
    if q.url in table then [table[q.url]] else []
  }

  function Visit(t: Tables, q: Request): seq<Rule> {
    q.hostOrder(t.host) + Hitting(q, t.regex) + UrlHit(q, t.url) + LastHit(q, t.ip) + Hitting(q, t.hostRegex)
  }

  // ----- the linear scan

  predicate Before(file: seq<Rule>, i: nat, url: string)
    requires i <= |file|
  {
    exists j :: 0 <= j < i && file[j].dest == Url(url)
  }

  predicate Overmarked(file: seq<Rule>, i: nat, q: Request)
    requires i <= |file|
  {
    exists j :: i <= j < |file| && file[j].dest.Ip? && Hits(q, file[j])
  }

  /** Line i matches the request, is not a second rule for its URL, and the request's address has not been
      claimed by a later address rule. */
  predicate Live(file: seq<Rule>, i: nat, q: Request)
    requires i < |file|
  {
    && Hits(q, file[i])
    && (file[i].dest.Url? ==> !Before(file, i, file[i].dest.url))
    && (file[i].dest.Ip? ==> !Overmarked(file, i + 1, q))
  }

  /** The first line from i on that is live and speaks on f. */
  function Scan(file: seq<Rule>, q: Request, f: Field, i: nat): Option<Rule>
    requires i <= |file|
    decreases |file| - i
  {
    if i == |file| then None
    else if Live(file, i, q) && Speaks(file[i], q.passes, f) then Some(file[i])
    else Scan(file, q, f, i + 1)
  }

  ghost predicate Ascending(file: seq<Rule>) {
    forall i, j :: 0 <= i < j < |file| ==> file[i].line < file[j].line
  }

  // ----- the tables deliver exactly the live lines

  predicate ByHost(d: Destination) {
    d.Host? || d.Domain?
  }

  lemma {:induction false} ListsHave(file: seq<Rule>, r: Rule)
    ensures r in Build(file).host <==> r in file && ByHost(r.dest)
    ensures r in Build(file).regex <==> r in file && r.dest.Regex?
    ensures r in Build(file).hostRegex <==> r in file && r.dest.HostRegex?
  {
    if file != [] {
      var n := |file| - 1;
      ListsHave(file[..n], r);
      assert file == file[..n] + [file[n]];
    }
  }

  lemma {:induction false} HittingHas(q: Request, rules: seq<Rule>, r: Rule)
    ensures r in Hitting(q, rules) <==> r in rules && Hits(q, r)
  {
    if rules != [] {
      var n := |rules| - 1;
      HittingHas(q, rules[..n], r);
      assert rules == rules[..n] + [rules[n]];
    }
  }

  ghost predicate FirstForUrl(file: seq<Rule>, i: nat, url: string) {
    i < |file| && file[i].dest == Url(url) && !Before(file, i, url)
  }

  lemma {:induction false} UrlHas(file: seq<Rule>, url: string)
    ensures var table := Build(file).url;
            && (url in table <==> Before(file, |file|, url))
            && (forall i: nat :: FirstForUrl(file, i, url) ==> url in table && table[url] == file[i])
            && (url in table ==> exists i: nat :: FirstForUrl(file, i, url))
  {
    if file != [] {
      var n := |file| - 1;
      var before := file[..n];
      UrlHas(before, url);
      assert Before(before, n, url) == Before(file, n, url);
      forall i: nat | i < n
        ensures FirstForUrl(before, i, url) <==> FirstForUrl(file, i, url)
      {
        assert Before(before, i, url) == Before(file, i, url);
      }
      assert FirstForUrl(file, n, url) <==> file[n].dest == Url(url) && url !in Build(before).url;
      forall i: nat | FirstForUrl(file, i, url)
        ensures url in Build(file).url && Build(file).url[url] == file[i]
      {
        if i < n {
          assert FirstForUrl(before, i, url);
        }
      }
    }
  }

  /** The last line that marks the request's address. */
  ghost predicate LastMark(file: seq<Rule>, q: Request, i: int) {
    0 <= i < |file| && file[i].dest.Ip? && Hits(q, file[i]) && !Overmarked(file, i + 1, q)
  }

  lemma MarkedByLast(file: seq<Rule>, q: Request, i: nat)
    requires i < |file|
    ensures var n := |file| - 1;
            Overmarked(file, i, q) <==> Overmarked(file[..n], i, q) || (file[n].dest.Ip? && Hits(q, file[n]))
  {
    var n := |file| - 1;
    assert forall j :: 0 <= j < n ==> file[j] == file[..n][j];
  }

  lemma {:induction false} LastHitIsLastMark(file: seq<Rule>, q: Request)
    ensures var hit := LastHit(q, Build(file).ip);
            if hit == [] then !Overmarked(file, 0, q)
            else exists i :: LastMark(file, q, i) && hit == [file[i]]
  {
    if file != [] {
      var n := |file| - 1;
      var before, last := file[..n], file[n];
      LastHitIsLastMark(before, q);
      MarkedByLast(file, q, 0);
      if last.dest.Ip? {
        assert Build(file).ip[..|Build(file).ip| - 1] == Build(before).ip;
      }
      if last.dest.Ip? && Hits(q, last) {
        assert LastMark(file, q, n);
      } else if LastHit(q, Build(before).ip) != [] {
        var i :| LastMark(before, q, i) && LastHit(q, Build(before).ip) == [before[i]];
        if i + 1 < |file| {
          MarkedByLast(file, q, i + 1);
        }
        assert LastMark(file, q, i);
      }
    }
  }

  lemma OneLastMark(file: seq<Rule>, q: Request, i: int, j: int)
    requires LastMark(file, q, i) && LastMark(file, q, j)
    ensures i == j
  {
  }

  ghost predicate LiveLine(file: seq<Rule>, q: Request, r: Rule) {
    exists i :: 0 <= i < |file| && file[i] == r && Live(file, i, q)
  }

  lemma LiveIp(file: seq<Rule>, q: Request, r: Rule)
    ensures r in LastHit(q, Build(file).ip) <==> r.dest.Ip? && LiveLine(file, q, r)
  {
    LastHitIsLastMark(file, q);
    if r.dest.Ip? && LiveLine(file, q, r) {
      var i :| 0 <= i < |file| && file[i] == r && Live(file, i, q);
      assert LastMark(file, q, i) && Overmarked(file, 0, q);
      var j :| LastMark(file, q, j) && LastHit(q, Build(file).ip) == [file[j]];
      OneLastMark(file, q, i, j);
    }
    if r in LastHit(q, Build(file).ip) {
      var j :| LastMark(file, q, j) && LastHit(q, Build(file).ip) == [file[j]];
      assert Live(file, j, q) && file[j] == r;
    }
  }

  lemma LiveUrl(file: seq<Rule>, q: Request, r: Rule)
    ensures r in UrlHit(q, Build(file).url) <==> r.dest.Url? && LiveLine(file, q, r)
  {
    UrlHas(file, q.url);
    if r.dest.Url? && LiveLine(file, q, r) {
      var i :| 0 <= i < |file| && file[i] == r && Live(file, i, q);
      assert FirstForUrl(file, i, q.url);
    }
    if r in UrlHit(q, Build(file).url) {
      var i: nat :| FirstForUrl(file, i, q.url);
      assert Live(file, i, q) && file[i] == r;
    }
  }

  lemma LiveElsewhere(file: seq<Rule>, q: Request, r: Rule)
    requires !r.dest.Url? && !r.dest.Ip?
    ensures LiveLine(file, q, r) <==> r in file && Hits(q, r)
  {
  }

  /** A request visits a rule if and only if the rule stands on a live line. */
  lemma VisitsLiveLines(file: seq<Rule>, q: Request, r: Rule)
    requires HostTreeDelivers(q)
    ensures r in Visit(Build(file), q) <==> LiveLine(file, q, r)
  {
    var t := Build(file);
    ListsHave(file, r);
    HittingHas(q, t.regex, r);
    HittingHas(q, t.hostRegex, r);
    LiveIp(file, q, r);
    LiveUrl(file, q, r);
    assert Delivered(q, t.host, r);
    if !r.dest.Url? && !r.dest.Ip? {
      LiveElsewhere(file, q, r);
    }
  }

  // ----- the scattered tables answer like the scan

  lemma {:induction false} ScanFinds(file: seq<Rule>, q: Request, f: Field, i: nat)
    requires i <= |file|
    ensures match Scan(file, q, f, i)
            case None => forall j :: i <= j < |file| && Live(file, j, q) ==> !Speaks(file[j], q.passes, f)
            case Some(r) =>
              exists j :: i <= j < |file| && file[j] == r && Live(file, j, q) && Speaks(r, q.passes, f)
                && forall k :: i <= k < j && Live(file, k, q) ==> !Speaks(file[k], q.passes, f)
    decreases |file| - i
  {
    if i < |file| && !(Live(file, i, q) && Speaks(file[i], q.passes, f)) {
      ScanFinds(file, q, f, i + 1);
    }
  }

  lemma FirstIsScanned(file: seq<Rule>, q: Request, f: Field, r: Option<Rule>)
    requires Ascending(file) && HostTreeDelivers(q) && IsFirst(Visit(Build(file), q), q.passes, f, r)
    ensures r == Scan(file, q, f, 0)
  {
    var visit := Visit(Build(file), q);
    forall x
      ensures x in visit <==> LiveLine(file, q, x)
    {
      VisitsLiveLines(file, q, x);
    }
    ScanFinds(file, q, f, 0);
    match Scan(file, q, f, 0)
    case None =>
    case Some(x) =>
      assert x in visit && Speaks(x, q.passes, f);
      var i :| 0 <= i < |file| && file[i] == r.value && Live(file, i, q);
  }

  function Answered(file: seq<Rule>, q: Request): Result {
    Fold(Visit(Build(file), q), q.passes, UNSET)
  }

  /** For rules on ascending lines, each part of the answer is that of the first live line that speaks on
      it; for never-cache, if no live ttl-in-cache line passes. */
  lemma MatchIsFirstMatch(file: seq<Rule>, q: Request, f: Field)
    requires Ascending(file) && HostTreeDelivers(q)
    requires f != Never || Scan(file, q, Ttl, 0).None?
    ensures Get(Answered(file, q), f) == Answer(f, Scan(file, q, f, 0))
  {
    var visit := Visit(Build(file), q);
    if f == Never {
      var t := FoldIsFirst(visit, q.passes, Ttl);
      FirstIsScanned(file, q, Ttl, t);
    }
    var r := FoldIsFirst(visit, q.passes, f);
    FirstIsScanned(file, q, f, r);
  }

  // ----- never-cache beside a live ttl-in-cache line

  /** In the order in which the tables are asked. */
  function Rank(d: Destination): nat {
    match d
    case Host(_) => 0
    case Domain(_) => 0
    case Regex(_) => 1
    case Url(_) => 2
    case Ip(_, _) => 3
    case HostRegex(_) => 4
  }

  ghost predicate Follows(visit: seq<Rule>, a: Rule, b: Rule) {
    exists i, j :: 0 <= i < j < |visit| && visit[i] == a && visit[j] == b
  }

  /** The line's table comes after that of the ttl line, or both are host rules and the host tree delivers
      it after the ttl line. */
  ghost predicate AskedAfter(file: seq<Rule>, q: Request, ttl: Rule, r: Rule) {
    || Rank(r.dest) > Rank(ttl.dest)
    || (Rank(r.dest) == Rank(ttl.dest) == 0 && Follows(q.hostOrder(Build(file).host), ttl, r))
  }

  lemma FollowsInSum(v: seq<Rule>, w: seq<Rule>, a: Rule, b: Rule)
    ensures Follows(v + w, a, b) <==> Follows(v, a, b) || Follows(w, a, b) || (a in v && b in w)
  {
    var s := v + w;
    if Follows(v, a, b) {
      var i, j :| 0 <= i < j < |v| && v[i] == a && v[j] == b;
      assert s[i] == a && s[j] == b;
    }
    if Follows(w, a, b) {
      var i, j :| 0 <= i < j < |w| && w[i] == a && w[j] == b;
      assert s[|v| + i] == a && s[|v| + j] == b;
    }
    if a in v && b in w {
      var i :| 0 <= i < |v| && v[i] == a;
      var j :| 0 <= j < |w| && w[j] == b;
      assert s[i] == a && s[|v| + j] == b;
    }
  }

  lemma FollowsHas(v: seq<Rule>, a: Rule, b: Rule)
    requires Follows(v, a, b)
    ensures a in v && b in v
  {
  }

  /** The lists of expressions keep the order of the file. */
  lemma {:induction false} ListsAscend(file: seq<Rule>)
    requires Ascending(file)
    ensures Ascending(Build(file).regex) && Ascending(Build(file).hostRegex)
  {
    if file != [] {
      var n := |file| - 1;
      ListsAscend(file[..n]);
      forall r | r in Build(file[..n]).regex || r in Build(file[..n]).hostRegex
        ensures r.line < file[n].line
      {
        ListsHave(file[..n], r);
      }
    }
  }

  lemma {:induction false} HittingAscends(q: Request, rules: seq<Rule>)
    requires Ascending(rules)
    ensures Ascending(Hitting(q, rules))
  {
    if rules != [] {
      var n := |rules| - 1;
      HittingAscends(q, rules[..n]);
      forall r | r in Hitting(q, rules[..n])
        ensures r.line < rules[n].line
      {
        HittingHas(q, rules[..n], r);
      }
    }
  }

  lemma NoneFollows(v: seq<Rule>, a: Rule, b: Rule)
    requires Ascending(v) && b.line <= a.line
    ensures !Follows(v, a, b)
  {
  }

  /** Where the rule of a destination can be visited. */
  ghost predicate InTable(v: seq<Rule>, rank: nat) {
    forall r :: r in v ==> Rank(r.dest) == rank
  }

  lemma RankInTable(file: seq<Rule>, q: Request, r: Rule)
    requires HostTreeDelivers(q)
    ensures var t := Build(file);
            && (r in q.hostOrder(t.host) ==> Rank(r.dest) == 0)
            && (r in Hitting(q, t.regex) ==> Rank(r.dest) == 1)
            && (r in UrlHit(q, t.url) ==> Rank(r.dest) == 2)
            && (r in LastHit(q, t.ip) ==> Rank(r.dest) == 3)
            && (r in Hitting(q, t.hostRegex) ==> Rank(r.dest) == 4)
  {
    var t := Build(file);
    assert Delivered(q, t.host, r);
    ListsHave(file, r);
    HittingHas(q, t.regex, r);
    HittingHas(q, t.hostRegex, r);
    LiveUrl(file, q, r);
    LiveIp(file, q, r);
  }

  lemma TablesAreApart(file: seq<Rule>, q: Request)
    requires HostTreeDelivers(q)
    ensures var t := Build(file);
            && InTable(q.hostOrder(t.host), 0)
            && InTable(Hitting(q, t.regex), 1) && InTable(UrlHit(q, t.url), 2)
            && InTable(LastHit(q, t.ip), 3) && InTable(Hitting(q, t.hostRegex), 4)
  {
    forall r {
      RankInTable(file, q, r);
    }
  }

  lemma TablesAscend(file: seq<Rule>, q: Request)
    requires Ascending(file)
    ensures var t := Build(file);
            && Ascending(Hitting(q, t.regex)) && Ascending(UrlHit(q, t.url))
            && Ascending(LastHit(q, t.ip)) && Ascending(Hitting(q, t.hostRegex))
  {
    ListsAscend(file);
    HittingAscends(q, Build(file).regex);
    HittingAscends(q, Build(file).hostRegex);
    AtMostOneMark(q, Build(file).ip);
  }

  lemma {:induction false} AtMostOneMark(q: Request, rules: seq<Rule>)
    ensures Ascending(LastHit(q, rules))
  {
    if rules != [] && !Hits(q, rules[|rules| - 1]) {
      AtMostOneMark(q, rules[..|rules| - 1]);
    }
  }

  /** A live line below a live ttl line is visited after it exactly when its destination is asked after. */
  lemma VisitedAfterIffAskedAfter(file: seq<Rule>, q: Request, ttl: Rule, r: Rule)
    requires Ascending(file) && HostTreeDelivers(q)
    requires LiveLine(file, q, ttl) && LiveLine(file, q, r) && r.line < ttl.line
    ensures Follows(Visit(Build(file), q), ttl, r) <==> AskedAfter(file, q, ttl, r)
  {
    VisitsLiveLines(file, q, ttl);
    VisitsLiveLines(file, q, r);
    TablesAreApart(file, q);
    TablesAscend(file, q);
    var t := Build(file);
    var host, regex, url, ip, hostRegex :=
      q.hostOrder(t.host), Hitting(q, t.regex), UrlHit(q, t.url), LastHit(q, t.ip), Hitting(q, t.hostRegex);
    FollowsInSum(host, regex, ttl, r);
    FollowsInSum(host + regex, url, ttl, r);
    FollowsInSum(host + regex + url, ip, ttl, r);
    FollowsInSum(host + regex + url + ip, hostRegex, ttl, r);
    NoneFollows(regex, ttl, r);
    NoneFollows(url, ttl, r);
    NoneFollows(ip, ttl, r);
    NoneFollows(hostRegex, ttl, r);
    if Follows(host, ttl, r) {
      FollowsHas(host, ttl, r);
    }
  }

  /** Of the live lines that speak on never-cache, stand before the ttl line and are asked after it, the
      lowest. */
  ghost predicate LowestLate(file: seq<Rule>, q: Request, ttl: Rule, r: Option<Rule>) {
    match r
    case None => forall x :: LiveLine(file, q, x) ==> !Late(file, q, ttl, x)
    case Some(rule) =>
      && LiveLine(file, q, rule) && Late(file, q, ttl, rule)
      && forall x :: LiveLine(file, q, x) && Late(file, q, ttl, x) ==> rule.line <= x.line
  }

  ghost predicate Late(file: seq<Rule>, q: Request, ttl: Rule, r: Rule) {
    Speaks(r, q.passes, Never) && r.line < ttl.line && AskedAfter(file, q, ttl, r)
  }

  lemma SameLine(file: seq<Rule>, q: Request, a: Rule, b: Rule)
    requires Ascending(file) && LiveLine(file, q, a) && LiveLine(file, q, b)
    ensures a.line == b.line <==> a == b
  {
  }

  /** What stands behind the first visit of the ttl line, and before its line, is what is late. */
  lemma LateIffBehind(file: seq<Rule>, q: Request, p: nat, x: Rule)
    requires Ascending(file) && HostTreeDelivers(q)
    requires FirstTtlAt(Visit(Build(file), q), q.passes, p)
    ensures var visit := Visit(Build(file), q);
            (x in visit[p + 1..] && Speaks(x, q.passes, Never) && x.line < visit[p].line)
            <==> (LiveLine(file, q, x) && Late(file, q, visit[p], x))
  {
    var visit := Visit(Build(file), q);
    var ttl := visit[p];
    VisitsLiveLines(file, q, ttl);
    VisitsLiveLines(file, q, x);
    if LiveLine(file, q, x) && x.line < ttl.line {
      VisitedAfterIffAskedAfter(file, q, ttl, x);
      if Follows(visit, ttl, x) {
        var i, j :| 0 <= i < j < |visit| && visit[i] == ttl && visit[j] == x;
        assert p <= i;
        assert visit[p + 1..][j - p - 1] == x;
      }
      if x in visit[p + 1..] {
        var j :| 0 <= j < |visit[p + 1..]| && visit[p + 1..][j] == x;
        assert visit[p + 1 + j] == x;
      }
    }
  }

  /** The never-cache answer of a file with a live ttl-in-cache line that passes, `ttl` being the first. */
  lemma NeverCacheAnswer(file: seq<Rule>, q: Request, ttl: Rule) returns (r: Option<Rule>)
    requires Ascending(file) && HostTreeDelivers(q) && Scan(file, q, Ttl, 0) == Some(ttl)
    ensures LowestLate(file, q, ttl, r) && Get(Answered(file, q), Never) == NeverOr(r, ttl.line)
  {
    var visit := Visit(Build(file), q);
    var t := FoldIsFirst(visit, q.passes, Ttl);
    FirstIsScanned(file, q, Ttl, t);
    var i :| 0 <= i < |visit| && visit[i] == ttl;
    var p := LeastTtl(visit, q.passes, ttl, i);
    VisitsLiveLines(file, q, visit[p]);
    VisitsLiveLines(file, q, ttl);
    SameLine(file, q, visit[p], ttl);
    r := NeverBesideTtl(visit, q.passes, p);
    forall x
      ensures (x in visit[p + 1..] && Speaks(x, q.passes, Never) && x.line < ttl.line)
              <==> (LiveLine(file, q, x) && Late(file, q, ttl, x))
    {
      LateIffBehind(file, q, p, x);
    }
  }

  /** The answer that the first live line gives which is a never-, standard- or ttl-in-cache line. */
  function FirstNever(never: Option<Rule>, ttl: Rule): Setting<int> {
    if never.Some? && never.value.line < ttl.line then Answer(Never, never) else Setting(0, ttl.line)
  }

  /** So with a live ttl-in-cache line the never-cache answer is that of the first match if and only if the
      first match is the ttl line, or is asked after it. */
  lemma NeverCacheIsFirstMatchIff(file: seq<Rule>, q: Request, ttl: Rule)
    requires Ascending(file) && HostTreeDelivers(q) && Scan(file, q, Ttl, 0) == Some(ttl)
    ensures var never := Scan(file, q, Never, 0);
            Get(Answered(file, q), Never) == FirstNever(never, ttl)
            <==> never.None? || ttl.line < never.value.line || AskedAfter(file, q, ttl, never.value)
  {
    var never := Scan(file, q, Never, 0);
    var r := NeverCacheAnswer(file, q, ttl);
    ScanFinds(file, q, Never, 0);
    ScanFinds(file, q, Ttl, 0);
    ScanIsLowest(file, q, Never, never);
    if never.Some? {
      SameLine(file, q, never.value, ttl);
      if r.Some? {
        SameLine(file, q, never.value, r.value);
      }
    }
  }

  lemma ScanIsLowest(file: seq<Rule>, q: Request, f: Field, r: Option<Rule>)
    requires Ascending(file) && r == Scan(file, q, f, 0)
    ensures r.None? ==> forall x :: LiveLine(file, q, x) ==> !Speaks(x, q.passes, f)
    ensures r.Some? ==> LiveLine(file, q, r.value) && Speaks(r.value, q.passes, f)
    ensures r.Some? ==> forall x :: LiveLine(file, q, x) && Speaks(x, q.passes, f) ==> r.value.line <= x.line
  {
    ScanFinds(file, q, f, 0);
    if r.Some? {
      var j :| 0 <= j < |file| && file[j] == r.value && Live(file, j, q) && Speaks(r.value, q.passes, f)
               && forall k :: 0 <= k < j && Live(file, k, q) ==> !Speaks(file[k], q.passes, f);
      forall x | LiveLine(file, q, x) && Speaks(x, q.passes, f)
        ensures r.value.line <= x.line
      {
        var i :| 0 <= i < |file| && file[i] == x && Live(file, i, q);
      }
    }
  }

  /** The tables are one such order: a never-cache line for a host is silenced by a later ttl-in-cache line
      for an expression, and speaks when the two destinations are exchanged. */
  lemma TtlOverridesEarlierLine(q: Request, h: Destination, x: Destination)
    requires forall table :: q.hostOrder(table) == table
    requires ByHost(h) && x.Regex? && q.urlRegex(x.pattern) > -1
    requires forall r :: q.passes(r)
    ensures !Answered([Rule(1, h, NeverCache, 0, -1), Rule(2, x, TtlInCache, 60, -1)], q).never.value
    ensures Answered([Rule(1, x, NeverCache, 0, -1), Rule(2, h, TtlInCache, 60, -1)], q).never.value
  {
    var a, b := Rule(1, h, NeverCache, 0, -1), Rule(2, x, TtlInCache, 60, -1);
    var c, d := Rule(1, x, NeverCache, 0, -1), Rule(2, h, TtlInCache, 60, -1);
    TwoRules(a, b);
    VisitsHostFirst(a, b, q);
    TwoRules(c, d);
    VisitsHostFirst(d, c, q);
    FoldTwo(a, b, q);
    FoldTwo(d, c, q);
  }

  lemma VisitsHostFirst(h: Rule, x: Rule, q: Request)
    requires forall table :: q.hostOrder(table) == table
    requires ByHost(h.dest) && x.dest.Regex? && Hits(q, x)
    ensures Visit(AddEntry(AddEntry(EMPTY, h), x), q) == Visit(AddEntry(AddEntry(EMPTY, x), h), q) == [h, x]
  {
  }

  lemma TwoRules(a: Rule, b: Rule)
    ensures Build([a, b]) == AddEntry(AddEntry(EMPTY, a), b)
  {
    var one := [a];
    var two := [a, b];
    assert two[..|two| - 1] == one && one[..|one| - 1] == [];
    assert Build(one) == AddEntry(Build([]), a);
  }

  lemma FoldTwo(a: Rule, b: Rule, q: Request)
    ensures Fold([a, b], q.passes, UNSET) == Update(Update(UNSET, a, q.passes(a)), b, q.passes(b))
  {
    var one := [a];
    var two := [a, b];
    assert two[..|two| - 1] == one && one[..|one| - 1] == [];
    assert Fold(one, q.passes, UNSET) == Update(Fold([], q.passes, UNSET), a, q.passes(a));
  }

  /** Every matching line is live when no URL has two rules and the address is in one range at most. */
  lemma AllMatchesLive(file: seq<Rule>, q: Request, i: nat)
    requires i < |file|
    requires forall j, k :: 0 <= j < k < |file| && file[j].dest.Url? ==> file[j].dest != file[k].dest
    requires forall j, k :: 0 <= j < k < |file| && file[j].dest.Ip? && file[k].dest.Ip? ==>
             !(Hits(q, file[j]) && Hits(q, file[k]))
    ensures Live(file, i, q) <==> Hits(q, file[i])
  {
  }
}

/** The objects of the proxy: the result that rules write into, and the matcher that owns the tables. */
module CacheControl {
  import opened CacheRules
  import opened RuleTables

  class CacheControlResult {
    var revalidateAfter: int
    var pinInCacheFor: int
    var ttlInCache: int
    var neverCache: bool
    var clusterCacheLocal: bool
    var ignoreClientNoCache: bool
    var ignoreServerNoCache: bool
    var cacheResponsesToCookies: int

    var revalLine: int
    var neverLine: int
    var pinLine: int
    var ttlLine: int
    var clusterCacheLocalLine: int
    var ignoreClientLine: int
    var ignoreServerLine: int

    function State(): Result
      reads this
    {
      Result(Setting(revalidateAfter, revalLine), Setting(pinInCacheFor, pinLine), Setting(ttlInCache, ttlLine),
             Setting(neverCache, neverLine), Setting(clusterCacheLocal, clusterCacheLocalLine),
             Setting(ignoreClientNoCache, ignoreClientLine), Setting(ignoreServerNoCache, ignoreServerLine),
             cacheResponsesToCookies)
    }

    constructor ()
      ensures State() == UNSET
    {
      revalidateAfter, pinInCacheFor, ttlInCache := -1, -1, -1;
      neverCache, clusterCacheLocal, ignoreClientNoCache, ignoreServerNoCache := false, false, false, false;
      cacheResponsesToCookies := -1;
      revalLine, neverLine, pinLine, ttlLine := -1, -1, -1, -1;
      clusterCacheLocalLine, ignoreClientLine, ignoreServerLine := -1, -1, -1;
    }

    /** The switch on the directive; ignore-no-cache falls through from the client to the server case. */
    method UpdateMatch(rule: Rule, passes: bool)
      modifies this
      ensures State() == Update(old(State()), rule, passes)
    {
      match rule.directive {
        case RevalidateAfter =>
          if CheckForMatch(rule, passes, revalLine) {
            revalidateAfter, revalLine := rule.arg, rule.line;
          }
        case NeverCache =>
          if CheckForMatch(rule, passes, neverLine) {
            neverCache, neverLine := true, rule.line;
          }
        case StandardCache =>
          if CheckForMatch(rule, passes, neverLine) {
            neverCache, neverLine := false, rule.line;
          }
        case IgnoreNoCache =>
          IgnoreClient(rule, passes);
          IgnoreServer(rule, passes);
        case IgnoreClientNoCache =>
          IgnoreClient(rule, passes);
        case IgnoreServerNoCache =>
          IgnoreServer(rule, passes);
        case ClusterCacheLocal =>
          if CheckForMatch(rule, passes, clusterCacheLocalLine) {
            clusterCacheLocal, clusterCacheLocalLine := true, rule.line;
          }
        case PinInCache =>
          if CheckForMatch(rule, passes, pinLine) {
            pinInCacheFor, pinLine := rule.arg, rule.line;
          }
        case TtlInCache =>
          if CheckForMatch(rule, passes, ttlLine) {
            ttlInCache, ttlLine := rule.arg, rule.line;
            neverCache, neverLine := false, rule.line;
          }
      }
      if rule.cookies >= 0 {
        cacheResponsesToCookies := rule.cookies;
      }
    }

    method IgnoreClient(rule: Rule, passes: bool)
      modifies this
      ensures State() == old(State()).(ignoreClient := Assign(old(State()).ignoreClient, rule, passes, true))
    {
      if CheckForMatch(rule, passes, ignoreClientLine) {
        ignoreClientNoCache, ignoreClientLine := true, rule.line;
      }
    }

    method IgnoreServer(rule: Rule, passes: bool)
      modifies this
      ensures State() == old(State()).(ignoreServer := Assign(old(State()).ignoreServer, rule, passes, true))
    {
      if CheckForMatch(rule, passes, ignoreServerLine) {
        ignoreServerNoCache, ignoreServerLine := true, rule.line;
      }
    }
  }

  class ControlMatcher {
    var hostMatch: seq<Rule>
    var reMatch: seq<Rule>
    var urlMatch: map<string, Rule>
    var ipMatch: seq<Rule>
    var hrMatch: seq<Rule>

    function State(): Tables
      reads this
    {
      Tables(hostMatch, reMatch, urlMatch, ipMatch, hrMatch)
    }

    constructor BuildTable(file: seq<Rule>)
      ensures State() == Build(file)
    {
      hostMatch, reMatch, urlMatch, ipMatch, hrMatch := [], [], map[], [], [];
      new;
      assert file[..0] == [];
      for i := 0 to |file|
        invariant State() == Build(file[..i])
      {
        assert file[..i + 1][..i] == file[..i];
        NewEntry(file[i]);
      }
      assert file[..|file|] == file;
    }

    method NewEntry(r: Rule)
      modifies this
      ensures State() == AddEntry(old(State()), r)
    {
      match r.dest
      case Host(_) => hostMatch := hostMatch + [r];
      case Domain(_) => hostMatch := hostMatch + [r];
      case Regex(_) => reMatch := reMatch + [r];
      case Url(u) =>
        if u !in urlMatch {
          urlMatch := urlMatch[u := r];
        }
      case Ip(_, _) => ipMatch := ipMatch + [r];
      case HostRegex(_) => hrMatch := hrMatch + [r];
    }

    /** Every rule of the list, in turn. */
    method UpdateAll(rules: seq<Rule>, q: Request, ghost done: seq<Rule>, result: CacheControlResult)
      requires result.State() == Fold(done, q.passes, UNSET)
      modifies result
      ensures result.State() == Fold(done + rules, q.passes, UNSET)
    {
      assert done + rules[..0] == done;
      for i := 0 to |rules|
        invariant result.State() == Fold(done + rules[..i], q.passes, UNSET)
      {
        result.UpdateMatch(rules[i], q.passes(rules[i]));
        assert (done + rules[..i + 1])[..|done| + i] == done + rules[..i];
      }
      assert rules[..|rules|] == rules;
    }

    /** The regular expressions in turn; those of hosts also count a pcre error as a match. */
    method MatchRegexes(table: seq<Rule>, q: Request, ghost done: seq<Rule>, result: CacheControlResult)
      requires result.State() == Fold(done, q.passes, UNSET)
      modifies result
      ensures result.State() == Fold(done + Hitting(q, table), q.passes, UNSET)
    {
      assert done + [] == done && table[..0] == [];
      for i := 0 to |table|
        invariant result.State() == Fold(done + Hitting(q, table[..i]), q.passes, UNSET)
      {
        assert table[..i + 1][..i] == table[..i];
        if Hits(q, table[i]) {
          ghost var seen := done + Hitting(q, table[..i]);
          result.UpdateMatch(table[i], q.passes(table[i]));
          assert (seen + [table[i]])[..|seen|] == seen;
          assert done + Hitting(q, table[..i + 1]) == seen + [table[i]];
        } else {
          assert Hitting(q, table[..i + 1]) == Hitting(q, table[..i]);
        }
      }
      assert table[..|table|] == table;
    }

    method Match(q: Request, result: CacheControlResult)
      requires result.State() == UNSET
      modifies result
      ensures result.State() == Fold(Visit(State(), q), q.passes, UNSET)
    {
      ghost var v := q.hostOrder(hostMatch);
      assert [] + v == v;
      UpdateAll(q.hostOrder(hostMatch), q, [], result);
      MatchRegexes(reMatch, q, v, result);
      v := v + Hitting(q, reMatch);
      UpdateAll(UrlHit(q, urlMatch), q, v, result);
      v := v + UrlHit(q, urlMatch);
      UpdateAll(LastHit(q, ipMatch), q, v, result);
      MatchRegexes(hrMatch, q, v + LastHit(q, ipMatch), result);
    }
  }

  /** A cache.config file, its tables and a request: the answer that comes out. */
  method GetCacheControl(file: seq<Rule>, q: Request) returns (result: CacheControlResult)
    ensures result.State() == Answered(file, q)
  {
    var matcher := new ControlMatcher.BuildTable(file);
    result := new CacheControlResult();
    matcher.Match(q, result);
  }
}
