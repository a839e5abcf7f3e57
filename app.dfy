/**
 * The hostname extractor shared by the account screens: the regular expression
 *
 *     ^(?:https?:\/\/)?(?:[^@\/\n]+@)?(?:www\.)?([^:\/?\n]+)
 *
 * matched with JavaScript's backtracking semantics, of which only the first
 * capture group is used.  Every optional group is greedy (taken before it is
 * skipped), and the match is anchored at the start of the input.
 */
module App {

  datatype Option<T> = None | Some(value: T)

  /** A capture: the captured text is s[start..end]. */
  datatype Span = Span(start: nat, end: nat)

  /** The two negated character classes of the pattern. */
  datatype CharClass =
    | Host      // [^:\/?\n]
    | Userinfo  // [^@\/\n]

  predicate InClass(c: char, cls: CharClass) {
    match cls
    case Host => c != ':' && c != '/' && c != '?' && c != '\n'
    case Userinfo => c != '@' && c != '/' && c != '\n'
  }

  predicate IsHostChar(c: char) {
    InClass(c, Host)
  }

  /** The end of the longest run of `cls` characters that starts at i. */
  function RunEnd(s: string, i: nat, cls: CharClass): (j: nat)
    requires i <= |s|
    ensures i <= j <= |s|
    ensures forall k :: i <= k < j ==> InClass(s[k], cls)
    ensures j == |s| || !InClass(s[j], cls)
    decreases |s| - i
  {
    if i < |s| && InClass(s[i], cls) then RunEnd(s, i + 1, cls) else i
  }

  /** RunEnd is the one end that closes a run: every character before it is in the class and the one at it is not. */
  lemma {:induction false} RunEndIs(s: string, i: nat, j: nat, cls: CharClass)
    requires i <= j <= |s|
    requires forall k :: i <= k < j ==> InClass(s[k], cls)
    requires j == |s| || !InClass(s[j], cls)
    ensures RunEnd(s, i, cls) == j
    decreases j - i
  {
    if i < j {
      RunEndIs(s, i + 1, j, cls);
    }
  }

  // ---------------------------------------------------------------------------
  // The groups of the pattern.  For each one, a predicate says declaratively
  // which stretches s[i..e] it can match, and a function says where a
  // backtracking matcher ends it.

  /** `https?:\/\/` matches s[..e]. */
  predicate SchemeAt(s: string, e: nat) {
    e <= |s| && (s[..e] == "https://" || s[..e] == "http://")
  }

  /** Where `https?:\/\/` ends at the start of s: the group matches in at most one way. */
  function SchemeEnd(s: string): (r: Option<nat>)
    ensures forall e: nat :: SchemeAt(s, e) <==> r == Some(e)
    ensures r.Some? ==> r.value <= |s|
  {
    if |s| >= 8 && s[..8] == "https://" then
      assert s[..7] == s[..8][..7] && s[..8][4] == s[4] == 's';
      Some(8)
    else if |s| >= 7 && s[..7] == "http://" then
      assert s[..7][4] == s[4] == ':';
      Some(7)
    else None
  }

  /** `[^@\/\n]+@` matches s[i..e]. */
  predicate UserinfoAt(s: string, i: nat, e: nat) {
    i + 2 <= e <= |s| && s[e - 1] == '@' && forall k :: i <= k < e - 1 ==> InClass(s[k], Userinfo)
  }

  /**
   * Where `[^@\/\n]+@` ends when tried at i.  The run cannot contain `@`, so
   * however the matcher backtracks into `+`, the group can only end just after
   * the first `@`: it matches in at most one way.
   */
  function UserinfoEnd(s: string, i: nat): (r: Option<nat>)
    requires i <= |s|
    ensures forall e: nat :: UserinfoAt(s, i, e) <==> r == Some(e)
    ensures r.Some? ==> r.value <= |s|
  {
    var j := RunEnd(s, i, Userinfo);
    if i < j < |s| && s[j] == '@' then Some(j + 1) else None
  }

  /** `www\.` matches s[i..e]. */
  predicate WwwAt(s: string, i: nat, e: nat) {
    i <= e <= |s| && s[i..e] == "www."
  }

  function WwwEnd(s: string, i: nat): (r: Option<nat>)
    requires i <= |s|
    ensures forall e: nat :: WwwAt(s, i, e) <==> r == Some(e)
    ensures r.Some? ==> r.value <= |s|
  {
    if i + 4 <= |s| && s[i..i + 4] == "www." then Some(i + 4) else None
  }

  /** `[^:\/?\n]+` matches s[i..e]. */
  predicate HostRunAt(s: string, i: nat, e: nat) {
    i < e <= |s| && forall k :: i <= k < e ==> IsHostChar(s[k])
  }

  /** The capture group tried at i: greedy, so the longest run of host characters. */
  function Capture(s: string, i: nat): (r: Option<Span>)
    requires i <= |s|
    ensures r.None? <==> i == |s| || !IsHostChar(s[i])
    ensures r.Some? ==> r.value.start == i && HostRunAt(s, i, r.value.end)
    ensures r.Some? ==> forall e: nat :: HostRunAt(s, i, e) ==> e <= r.value.end
  {
    var j := RunEnd(s, i, Host);
    if i < j then Some(Span(i, j)) else None
  }

  // ---------------------------------------------------------------------------
  // The whole pattern, as a backtracking matcher runs it: each optional group
  // is first taken (when it matches) and, if the rest of the pattern then
  // fails, skipped.

  /** A capture that is a maximal run of host characters of s. */
  predicate IsMaximalHostRun(s: string, sp: Span) {
    HostRunAt(s, sp.start, sp.end) && (sp.end == |s| || !IsHostChar(s[sp.end]))
  }

  function Or(a: Option<Span>, b: Option<Span>): Option<Span> {
    if a.Some? then a else b
  }

  /** `(?:www\.)?` and the capture, tried at i. */
  function FromWww(s: string, i: nat): (r: Option<Span>)
    requires i <= |s|
    ensures r.Some? ==> i <= r.value.start && IsMaximalHostRun(s, r.value)
    ensures r.None? <==> i == |s| || !IsHostChar(s[i])
  {
    match WwwEnd(s, i)
    case Some(e) => Or(Capture(s, e), Capture(s, i))
    case None => Capture(s, i)
  }

  /** `(?:[^@\/\n]+@)?(?:www\.)?` and the capture, tried at i. */
  function FromUserinfo(s: string, i: nat): (r: Option<Span>)
    requires i <= |s|
    ensures r.Some? ==> i <= r.value.start && IsMaximalHostRun(s, r.value)
    ensures i < |s| && IsHostChar(s[i]) ==> r.Some?
  {
    match UserinfoEnd(s, i)
    case Some(e) => Or(FromWww(s, e), FromWww(s, i))
    case None => FromWww(s, i)
  }

  /** The whole anchored pattern on s: the span of its capture group, or None when `match` gives null. */
  function MatchSpan(s: string): (r: Option<Span>)
    ensures r.Some? ==> IsMaximalHostRun(s, r.value)
    ensures s != [] && IsHostChar(s[0]) ==> r.Some?
  {
    match SchemeEnd(s)
    case Some(e) => Or(FromUserinfo(s, e), FromUserinfo(s, 0))
    case None => FromUserinfo(s, 0)
  }

  /** The hostname the account screens store: the first capture group, or None when the match fails. */
  function Hostname(s: string): (r: Option<string>)
    ensures r.Some? ==> |r.value| > 0 && forall k :: 0 <= k < |r.value| ==> IsHostChar(r.value[k])
    ensures s == [] ==> r.None?
    ensures s != [] && IsHostChar(s[0]) ==> r.Some?
  {
    TextOf(s, MatchSpan(s))
  }

  /** A hostname is a stretch of the input that ends at the input's end or at a character the capture refuses. */
  lemma HostnameIsMaximalRun(s: string)
    ensures Hostname(s).Some? ==>
      exists i: nat, j: nat :: i < j <= |s| && Hostname(s).value == s[i..j] && (j == |s| || !IsHostChar(s[j]))
  {
  }

  /** Input starting with `/` or a newline: no group can match there and the capture is empty. */
  lemma FailsAtSlash(s: string)
    requires s != [] && (s[0] == '/' || s[0] == '\n')
    ensures Hostname(s).None?
  {
    assert SchemeEnd(s) == None by {
      if |s| >= 8 { assert s[..8][0] == s[0]; }
      if |s| >= 7 { assert s[..7][0] == s[0]; }
    }
    assert UserinfoEnd(s, 0) == None by {
      assert RunEnd(s, 0, Userinfo) == 0;
    }
    assert WwwEnd(s, 0) == None by {
      if |s| >= 4 { assert s[0..4][0] == s[0]; }
    }
  }

  // ---------------------------------------------------------------------------
  // An independent account of the same semantics: the eight ways of taking or
  // skipping the three optional groups, listed in the order a backtracking
  // matcher tries them; the first one that leaves a non-empty capture wins.

  /** Which optional groups one attempt takes. */
  datatype Choice = Choice(scheme: bool, userinfo: bool, www: bool)

  /** Greedy `?` takes before it skips, and an earlier group changes its choice last. */
  const Priority: seq<Choice> := [
    Choice(true, true, true), Choice(true, true, false),
    Choice(true, false, true), Choice(true, false, false),
    Choice(false, true, true), Choice(false, true, false),
    Choice(false, false, true), Choice(false, false, false)
  ]

  /** Where the userinfo group is tried: after the scheme when it is taken (and matches). */
  function SchemeChoice(s: string, take: bool): (r: Option<nat>)
    ensures r.Some? ==> r.value <= |s|
  {
    if take then SchemeEnd(s) else Some(0)
  }

  /** Where the `www.` group is tried under the first two choices. */
  function UserinfoChoice(s: string, scheme: bool, take: bool): (r: Option<nat>)
    ensures r.Some? ==> r.value <= |s|
  {
    match SchemeChoice(s, scheme)
    case Some(p) => if take then UserinfoEnd(s, p) else Some(p)
    case None => None
  }

  /** Where the capture is tried under choice c, provided every group c takes matches where it is tried. */
  function CaptureStart(s: string, c: Choice): (r: Option<nat>)
    ensures r.Some? ==> r.value <= |s|
  {
    match UserinfoChoice(s, c.scheme, c.userinfo)
    case Some(p) => if c.www then WwwEnd(s, p) else Some(p)
    case None => None
  }

  /** The attempt under choice c: the capture, if that choice is possible at all. */
  function Attempt(s: string, c: Choice): Option<Span> {
    match CaptureStart(s, c)
    case Some(p) => Capture(s, p)
    case None => None
  }

  /** The first of cs[k..] whose attempt succeeds. */
  function FirstMatch(s: string, cs: seq<Choice>, k: nat): Option<Span>
    decreases |cs| - k
  {
    if k >= |cs| then None else Or(Attempt(s, cs[k]), FirstMatch(s, cs, k + 1))
  }

  /** The backtracking matcher gives exactly the first successful attempt in priority order. */
  lemma MatchFollowsPriority(s: string)
    ensures MatchSpan(s) == FirstMatch(s, Priority, 0)
  {
  }

  // ---------------------------------------------------------------------------
  // What the optional groups strip.

  /** A span moved d characters to the right. */
  function Shift(o: Option<Span>, d: nat): Option<Span> {
    match o
    case Some(sp) => Some(Span(sp.start + d, sp.end + d))
    case None => None
  }

  /** A run inside t ends at the same place when t follows a prefix p. */
  lemma {:induction false} RunEndShift(p: string, t: string, i: nat, cls: CharClass)
    requires i <= |t|
    ensures RunEnd(p + t, |p| + i, cls) == |p| + RunEnd(t, i, cls)
    decreases |t| - i
  {
    if i < |t| {
      assert (p + t)[|p| + i] == t[i];
      if InClass(t[i], cls) {
        RunEndShift(p, t, i + 1, cls);
      }
    }
  }

  /** A run in p + t: it ends inside p, or it crosses into t and ends where t's leading run ends. */
  lemma {:induction false} RunEndConcat(p: string, t: string, i: nat, cls: CharClass)
    requires i <= |p|
    ensures RunEnd(p + t, i, cls) == if RunEnd(p, i, cls) < |p| then RunEnd(p, i, cls) else |p| + RunEnd(t, 0, cls)
    decreases |p| - i
  {
    if i == |p| {
      RunEndShift(p, t, 0, cls);
    } else {
      assert (p + t)[i] == p[i];
      if InClass(p[i], cls) {
        RunEndConcat(p, t, i + 1, cls);
      }
    }
  }

  /** A position moved d characters to the right. */
  function ShiftPos(o: Option<nat>, d: nat): Option<nat> {
    match o
    case Some(e) => Some(e + d)
    case None => None
  }

  lemma CaptureShift(p: string, t: string, i: nat)
    requires i <= |t|
    ensures Capture(p + t, |p| + i) == Shift(Capture(t, i), |p|)
  {
    RunEndShift(p, t, i, Host);
  }

  lemma WwwEndShift(p: string, t: string, i: nat)
    requires i <= |t|
    ensures WwwEnd(p + t, |p| + i) == ShiftPos(WwwEnd(t, i), |p|)
  {
    if i + 4 <= |t| {
      assert (p + t)[|p| + i..|p| + i + 4] == t[i..i + 4];
    }
  }

  lemma UserinfoEndShift(p: string, t: string, i: nat)
    requires i <= |t|
    ensures UserinfoEnd(p + t, |p| + i) == ShiftPos(UserinfoEnd(t, i), |p|)
  {
    RunEndShift(p, t, i, Userinfo);
    var j := RunEnd(t, i, Userinfo);
    if j < |t| {
      assert (p + t)[|p| + j] == t[j];
    }
  }

  lemma FromWwwShift(p: string, t: string, i: nat)
    requires i <= |t|
    ensures FromWww(p + t, |p| + i) == Shift(FromWww(t, i), |p|)
  {
    WwwEndShift(p, t, i);
    CaptureShift(p, t, i);
    if WwwEnd(t, i).Some? {
      CaptureShift(p, t, WwwEnd(t, i).value);
    }
  }

  lemma FromUserinfoShift(p: string, t: string, i: nat)
    requires i <= |t|
    ensures FromUserinfo(p + t, |p| + i) == Shift(FromUserinfo(t, i), |p|)
  {
    var d := |p|;
    UserinfoEndShift(p, t, i);
    FromUserinfoSplit(p + t, d + i);
    FromUserinfoSplit(t, i);
    FromWwwAfterShift(p, t, UserinfoEnd(t, i));
    FromWwwShift(p, t, i);
    OrOfShifts(FromWwwAfter(p + t, UserinfoEnd(p + t, d + i)), FromWww(p + t, d + i),
               FromWwwAfter(t, UserinfoEnd(t, i)), FromWww(t, i), d);
  }

  /** The rest of the pattern tried where the userinfo group ended, if it matched. */
  function FromWwwAfter(s: string, o: Option<nat>): (r: Option<Span>)
    requires o.Some? ==> o.value <= |s|
    ensures o.None? ==> r.None?
  {
    match o
    case Some(e) => FromWww(s, e)
    case None => None
  }

  /** The userinfo group is taken when it matches; otherwise the rest is tried at i. */
  lemma FromUserinfoSplit(s: string, i: nat)
    requires i <= |s|
    ensures FromUserinfo(s, i) == Or(FromWwwAfter(s, UserinfoEnd(s, i)), FromWww(s, i))
  {
  }

  lemma FromWwwAfterShift(p: string, t: string, o: Option<nat>)
    requires o.Some? ==> o.value <= |t|
    ensures FromWwwAfter(p + t, ShiftPos(o, |p|)) == Shift(FromWwwAfter(t, o), |p|)
  {
    match o
    case Some(e) =>
      assert ShiftPos(o, |p|) == Some(|p| + e);
      assert FromWwwAfter(t, o) == FromWww(t, e);
      assert FromWwwAfter(p + t, Some(|p| + e)) == FromWww(p + t, |p| + e);
      FromWwwShift(p, t, e);
    case None =>
  }

  lemma OrOfShifts(a: Option<Span>, b: Option<Span>, x: Option<Span>, y: Option<Span>, d: nat)
    requires a == Shift(x, d) && b == Shift(y, d)
    ensures Or(a, b) == Shift(Or(x, y), d)
  {
  }

  /** Span o of t, moved into p + t, captures the same text. */
  lemma ShiftedText(p: string, t: string, sp: Span)
    requires sp.start <= sp.end <= |t|
    ensures (p + t)[|p| + sp.start..|p| + sp.end] == t[sp.start..sp.end]
  {
  }

  /** The text a possible span covers: the slice, or None. */
  function TextOf(s: string, o: Option<Span>): (r: Option<string>)
    requires o.Some? ==> o.value.start <= o.value.end <= |s|
    ensures r.Some? <==> o.Some?
    ensures r.Some? ==> |r.value| == o.value.end - o.value.start
  {
    match o
    case Some(sp) => Some(s[sp.start..sp.end])
    case None => None
  }

  lemma TextOfShift(p: string, t: string, o: Option<Span>)
    requires o.Some? ==> o.value.start <= o.value.end <= |t|
    ensures TextOf(p + t, Shift(o, |p|)) == TextOf(t, o)
  {
    if o.Some? {
      ShiftedText(p, t, o.value);
    }
  }

  /** Input not starting with `h` has no scheme. */
  lemma NoSchemeUnlessH(s: string)
    requires s == [] || s[0] != 'h'
    ensures SchemeEnd(s).None?
  {
  }

  /**
   * Behind a scheme, the userinfo run from the start stops at the scheme's
   * first slash, so the userinfo group can never match at the start of an
   * input that has a scheme.
   */
  lemma SchemeBlocksUserinfo(s: string)
    requires SchemeEnd(s).Some?
    ensures UserinfoEnd(s, 0).None?
  {
  }

  /** When the match of p + t is the match of t moved right by |p|, both yield the same hostname. */
  lemma HostnameOfShift(p: string, t: string)
    requires MatchSpan(p + t) == Shift(MatchSpan(t), |p|)
    ensures Hostname(p + t) == Hostname(t)
  {
    TextOfShift(p, t, MatchSpan(t));
  }

  /** A prefix consumed whole by the scheme group leaves a host behind it as the first choice. */
  lemma MatchBehindScheme(p: string, t: string)
    requires SchemeEnd(p + t) == Some(|p|)
    requires t != [] && IsHostChar(t[0]) && SchemeEnd(t).None?
    ensures MatchSpan(p + t) == Shift(MatchSpan(t), |p|)
  {
    FromUserinfoShift(p, t, 0);
  }

  /** A scheme prefix is recognised in front of any text. */
  lemma SchemePrefix(p: string, t: string)
    requires p == "https://" || p == "http://"
    ensures SchemeEnd(p + t) == Some(|p|)
  {
  }

  /** A leading `https://` or `http://` in front of a host is removed and nothing else changes. */
  lemma SchemeStripped(p: string, t: string)
    requires p == "https://" || p == "http://"
    requires t != [] && IsHostChar(t[0]) && SchemeEnd(t).None?
    ensures Hostname(p + t) == Hostname(t)
  {
    SchemePrefix(p, t);
    MatchBehindScheme(p, t);
    HostnameOfShift(p, t);
  }

  /** A prefix consumed whole by the userinfo group, with no scheme, leaves a host behind it as the first choice. */
  lemma MatchBehindUserinfo(p: string, t: string)
    requires SchemeEnd(p + t).None? && UserinfoEnd(p + t, 0) == Some(|p|)
    requires t != [] && IsHostChar(t[0]) && SchemeEnd(t).None? && UserinfoEnd(t, 0).None?
    ensures MatchSpan(p + t) == Shift(MatchSpan(t), |p|)
  {
    var s := p + t;
    assert s[|p|] == t[0];
    FromWwwShift(p, t, 0);
  }

  /** A userinfo prefix ending in `@` is recognised in front of any text. */
  lemma UserinfoPrefix(u: string, t: string)
    requires u != [] && forall k :: 0 <= k < |u| ==> InClass(u[k], Userinfo)
    ensures UserinfoEnd(u + "@" + t, 0) == Some(|u| + 1)
  {
  }

  /** A leading `userinfo@` in front of a host is removed and nothing else changes. */
  lemma UserinfoStripped(u: string, t: string)
    requires u != [] && forall k :: 0 <= k < |u| ==> InClass(u[k], Userinfo)
    requires t != [] && IsHostChar(t[0]) && SchemeEnd(t).None? && UserinfoEnd(t, 0).None?
    ensures Hostname(u + "@" + t) == Hostname(t)
  {
    var p := u + "@";
    assert p + t == u + "@" + t;
    UserinfoPrefix(u, t);
    if SchemeEnd(p + t).Some? {
      SchemeBlocksUserinfo(p + t);
      assert false;
    }
    MatchBehindUserinfo(p, t);
    HostnameOfShift(p, t);
  }

  /** Without an `@`, the userinfo group cannot match behind `www.`. */
  lemma WwwBlocksUserinfo(t: string)
    requires forall k :: 0 <= k < |t| ==> t[k] != '@'
    ensures UserinfoEnd("www." + t, 0) == None
  {
  }

  /** Behind `www.` the capture is the host run of what follows, moved by four. */
  lemma WwwSpan(t: string)
    requires t != [] && IsHostChar(t[0])
    requires forall k :: 0 <= k < |t| ==> t[k] != '@'
    ensures MatchSpan("www." + t) == Shift(Some(Span(0, RunEnd(t, 0, Host))), 4)
  {
    NoSchemeUnlessH("www." + t);
    WwwBlocksUserinfo(t);
    WwwPrefix(t);
    MatchBehindWww("www.", t);
  }

  /** `www.` is recognised in front of any text. */
  lemma WwwPrefix(t: string)
    ensures WwwEnd("www." + t, 0) == Some(4)
  {
    assert ("www." + t)[0..4] == "www.";
  }

  /** A prefix consumed whole by the `www.` group, with no scheme or userinfo, leaves the capture of what follows. */
  lemma MatchBehindWww(p: string, t: string)
    requires SchemeEnd(p + t).None? && UserinfoEnd(p + t, 0).None? && WwwEnd(p + t, 0) == Some(|p|)
    requires t != [] && IsHostChar(t[0])
    ensures MatchSpan(p + t) == Shift(Capture(t, 0), |p|)
  {
    CaptureShift(p, t, 0);
  }

  /** At most one leading `www.` in front of a host is removed. */
  lemma WwwStripped(t: string)
    requires t != [] && IsHostChar(t[0])
    requires forall k :: 0 <= k < |t| ==> t[k] != '@'
    ensures Hostname("www." + t) == Some(t[..RunEnd(t, 0, Host)])
  {
    var r := RunEnd(t, 0, Host);
    WwwSpan(t);
    TextOfShift("www.", t, Some(Span(0, r)));
    assert t[0..r] == t[..r];
  }

  /** The text of a span that lies inside p is the same in p + t. */
  lemma PrefixText(p: string, t: string, n: nat)
    requires n <= |p|
    ensures TextOf(p + t, Some(Span(0, n))) == Some(p[..n])
  {
    assert (p + t)[0..n] == p[..n];
  }

  /** Inside a scheme, the userinfo run stops at the first slash and the host run at the colon. */
  lemma SchemeRuns(p: string)
    requires p == "https://" || p == "http://"
    ensures |p| >= 7 && p[|p| - 2] == '/' && p[|p| - 3] == ':'
    ensures RunEnd(p, 0, Userinfo) == |p| - 2 && RunEnd(p, 0, Host) == |p| - 3
  {
  }

  /** Behind a bare scheme no group matches: the scheme's own first part is the only capture. */
  lemma BareSchemeGroups(p: string, t: string)
    requires p == "https://" || p == "http://"
    requires t == [] || t[0] == '/' || t[0] == '\n'
    ensures FromUserinfo(p + t, |p|) == None
    ensures UserinfoEnd(p + t, 0) == None && WwwEnd(p + t, 0) == None
    ensures Capture(p + t, 0) == Some(Span(0, |p| - 3))
  {
    var s := p + t;
    SchemeRuns(p);
    assert s[|p| - 2] == p[|p| - 2];
    RunEndShift(p, t, 0, Userinfo);
    RunEndShift(p, t, 0, Host);
    RunEndConcat(p, t, 0, Userinfo);
    RunEndConcat(p, t, 0, Host);
    assert WwwEnd(s, 0) == None by {
      if |s| >= 4 { assert s[0..4][0] == s[0]; }
    }
  }

  /** When nothing capturable follows the scheme, the scheme is kept and the capture stops at its colon. */
  lemma BareSchemeKept(p: string, t: string)
    requires p == "https://" || p == "http://"
    requires t == [] || t[0] == '/' || t[0] == '\n'
    ensures Hostname(p + t) == Some(p[..|p| - 3])
  {
    SchemePrefix(p, t);
    BareSchemeGroups(p, t);
    assert MatchSpan(p + t) == Some(Span(0, |p| - 3));
    PrefixText(p, t, |p| - 3);
  }

  /** Behind a bare `www.` nothing is capturable, and the run from the start stops after it. */
  lemma BareWwwGroups(t: string)
    requires t == [] || t[0] == '/' || t[0] == '\n'
    ensures UserinfoEnd("www." + t, 0) == None && WwwEnd("www." + t, 0) == Some(4)
    ensures Capture("www." + t, 4) == None && Capture("www." + t, 0) == Some(Span(0, 4))
  {
    var s := "www." + t;
    assert s[..4] == "www." && s[4..] == t;
    RunEndIs(s, 0, 4, Userinfo);
    RunEndIs(s, 0, 4, Host);
    assert s[0..4] == "www.";
  }

  /** When nothing capturable follows `www.`, it is kept. */
  lemma BareWwwKept(t: string)
    requires t == [] || t[0] == '/' || t[0] == '\n'
    ensures Hostname("www." + t) == Some("www.")
  {
    var p := "www.";
    NoSchemeUnlessH(p + t);
    BareWwwGroups(t);
    assert MatchSpan(p + t) == Some(Span(0, 4));
    PrefixText(p, t, 4);
    assert p[..4] == p;
  }
}
