/**
 * The bare-module-name test of the plugin: a specifier names a package (optionally
 * scoped) when it has the shape
 *
 *     ( '@' Lead Tail* '/' )? Lead Tail*
 *
 * with Lead = [a-z0-9-~] and Tail = [a-z0-9-._~]. The test is written as a
 * character-by-character automaton (`IsBareModuleSource`) and proved to accept
 * exactly the strings of that shape (`MatchesValidModuleName`).
 */
module ModuleName {

  /** A character allowed at the start of a scope or a name. */
  predicate IsLeadChar(c: char) {
    ('a' <= c <= 'z') || ('0' <= c <= '9') || c == '-' || c == '~'
  }

  /** A character allowed after the first one of a scope or a name. */
  predicate IsTailChar(c: char) {
    IsLeadChar(c) || c == '.' || c == '_'
  }

  predicate AllTail(s: string) {
    forall k | 0 <= k < |s| :: IsTailChar(s[k])
  }

  /** One non-empty segment `Lead Tail*`. */
  predicate IsSegment(s: string) {
    |s| > 0 && IsLeadChar(s[0]) && AllTail(s[1..])
  }

  /** `scope '/' name` with both parts segments. */
  ghost predicate IsScopeThenName(t: string) {
    exists i | 0 < i < |t| :: t[i] == '/' && IsSegment(t[..i]) && IsSegment(t[i + 1..])
  }

  /** The strings the source's VALID_MODULE_NAME pattern matches, read off the pattern. */
  ghost predicate MatchesValidModuleName(s: string) {
    IsSegment(s) || (|s| > 0 && s[0] == '@' && IsScopeThenName(s[1..]))
  }

  /** States of the validating automaton. */
  datatype State = Start | ScopeLead | ScopeTail | NameLead | NameTail | Reject

  function Step(q: State, c: char): State {
    match q
    case Start => if c == '@' then ScopeLead else if IsLeadChar(c) then NameTail else Reject
    case ScopeLead => if IsLeadChar(c) then ScopeTail else Reject
    case ScopeTail => if c == '/' then NameLead else if IsTailChar(c) then ScopeTail else Reject
    case NameLead => if IsLeadChar(c) then NameTail else Reject
    case NameTail => if IsTailChar(c) then NameTail else Reject
    case Reject => Reject
  }

  /** Feeds the characters of `s` to the automaton, starting in `q`. */
  function Run(q: State, s: string): State
    decreases |s|
  {
    if s == [] then q else Run(Step(q, s[0]), s[1..])
  }

  /** isBareModuleSource: the automaton ends in the accepting state. */
  function IsBareModuleSource(name: string): (r: bool)
    ensures r <==> MatchesValidModuleName(name)
  {
    RunStartAccepts(name);
    Run(Start, name) == NameTail
  }

  lemma {:induction false} RunReject(s: string)
    ensures Run(Reject, s) == Reject
    decreases |s|
  {
    if s != [] {
      RunReject(s[1..]);
    }
  }

  lemma {:induction false} RunNameTailAccepts(s: string)
    ensures Run(NameTail, s) == NameTail <==> AllTail(s)
    decreases |s|
  {
    if s != [] {
      if IsTailChar(s[0]) {
        RunNameTailAccepts(s[1..]);
        assert AllTail(s) <==> AllTail(s[1..]) by {
          forall k | 1 <= k < |s| ensures s[k] == s[1..][k - 1] { }
        }
      } else {
        RunReject(s[1..]);
      }
    }
  }

  lemma RunNameLeadAccepts(s: string)
    ensures Run(NameLead, s) == NameTail <==> IsSegment(s)
  {
    if s != [] {
      if IsLeadChar(s[0]) {
        RunNameTailAccepts(s[1..]);
      } else {
        RunReject(s[1..]);
      }
    }
  }

  /** `Tail* '/' name`: what may follow the first character of a scope. */
  ghost predicate IsTailsThenName(t: string) {
    exists i | 0 <= i < |t| :: t[i] == '/' && AllTail(t[..i]) && IsSegment(t[i + 1..])
  }

  /** Putting a tail character in front keeps the shape `Tail* '/' name`. */
  lemma ConsTailsThenName(c: char, t: string)
    requires IsTailChar(c)
    ensures IsTailsThenName([c] + t) <==> IsTailsThenName(t)
  {
    if IsTailsThenName(t) {
      ConsKeepsTailsThenName(c, t);
    }
    if IsTailsThenName([c] + t) {
      UnconsKeepsTailsThenName(c, t);
    }
  }

  lemma ConsKeepsTailsThenName(c: char, t: string)
    requires IsTailChar(c) && IsTailsThenName(t)
    ensures IsTailsThenName([c] + t)
  {
    var s := [c] + t;
    var j :| 0 <= j < |t| && t[j] == '/' && AllTail(t[..j]) && IsSegment(t[j + 1..]);
    assert s[j + 1] == '/' && s[j + 1 + 1..] == t[j + 1..];
    var p := s[..j + 1];
    assert p == [c] + t[..j];
    assert AllTail(p) by {
      forall k | 0 <= k < |p| ensures IsTailChar(p[k]) {
        if k > 0 { assert p[k] == t[..j][k - 1]; }
      }
    }
  }

  lemma UnconsKeepsTailsThenName(c: char, t: string)
    requires IsTailChar(c) && IsTailsThenName([c] + t)
    ensures IsTailsThenName(t)
  {
    var s := [c] + t;
    var i :| 0 <= i < |s| && s[i] == '/' && AllTail(s[..i]) && IsSegment(s[i + 1..]);
    assert i > 0;
    assert t[i - 1] == '/' && t[i - 1 + 1..] == s[i + 1..];
    var p := t[..i - 1];
    assert AllTail(p) by {
      forall k | 0 <= k < |p| ensures IsTailChar(p[k]) {
        assert p[k] == s[..i][k + 1];
      }
    }
  }

  /** A leading character that is neither '/' nor a tail character rules the shape out. */
  lemma NotTailsThenName(s: string)
    requires |s| > 0 && s[0] != '/' && !IsTailChar(s[0])
    ensures !IsTailsThenName(s)
  {
    forall i | 0 <= i < |s| && s[i] == '/'
      ensures !AllTail(s[..i])
    {
      assert s[..i][0] == s[0];
    }
  }

  /** After a leading '/', the shape holds exactly when the rest is a name. */
  lemma SlashTailsThenName(s: string)
    requires |s| > 0 && s[0] == '/'
    ensures IsTailsThenName(s) <==> IsSegment(s[1..])
  {
    if IsSegment(s[1..]) {
      assert s[0] == '/' && AllTail(s[..0]) && IsSegment(s[0 + 1..]);
    }
    forall i | 0 < i < |s| && s[i] == '/'
      ensures !AllTail(s[..i])
    {
      assert s[..i][0] == '/';
    }
  }

  lemma {:induction false} RunScopeTailAccepts(s: string)
    ensures Run(ScopeTail, s) == NameTail <==> IsTailsThenName(s)
    decreases |s|
  {
    if s == [] {
      return;
    }
    var t := s[1..];
    assert s == [s[0]] + t;
    if s[0] == '/' {
      RunNameLeadAccepts(t);
      SlashTailsThenName(s);
    } else if IsTailChar(s[0]) {
      RunScopeTailAccepts(t);
      ConsTailsThenName(s[0], t);
    } else {
      RunReject(t);
      NotTailsThenName(s);
    }
  }

  /** A scope begins with a lead character followed by `Tail* '/' name`. */
  lemma LeadThenTailsThenName(s: string)
    requires |s| > 0 && IsLeadChar(s[0])
    ensures IsScopeThenName(s) <==> IsTailsThenName(s[1..])
  {
    if IsTailsThenName(s[1..]) {
      TailsThenNameGivesScope(s);
    }
    if IsScopeThenName(s) {
      ScopeGivesTailsThenName(s);
    }
  }

  lemma TailsThenNameGivesScope(s: string)
    requires |s| > 0 && IsLeadChar(s[0]) && IsTailsThenName(s[1..])
    ensures IsScopeThenName(s)
  {
    var t := s[1..];
    var j :| 0 <= j < |t| && t[j] == '/' && AllTail(t[..j]) && IsSegment(t[j + 1..]);
    assert s[j + 1] == '/' && s[j + 1 + 1..] == t[j + 1..];
    assert s[..j + 1][1..] == t[..j];
    assert IsSegment(s[..j + 1]);
  }

  lemma ScopeGivesTailsThenName(s: string)
    requires |s| > 0 && IsScopeThenName(s)
    ensures IsTailsThenName(s[1..])
  {
    var t := s[1..];
    var i :| 0 < i < |s| && s[i] == '/' && IsSegment(s[..i]) && IsSegment(s[i + 1..]);
    assert t[i - 1] == '/' && t[i - 1 + 1..] == s[i + 1..];
    assert s[..i][1..] == t[..i - 1];
  }

  lemma RunScopeLeadAccepts(s: string)
    ensures Run(ScopeLead, s) == NameTail <==> IsScopeThenName(s)
  {
    if s == [] {
      return;
    }
    if IsLeadChar(s[0]) {
      RunScopeTailAccepts(s[1..]);
      LeadThenTailsThenName(s);
    } else {
      RunReject(s[1..]);
    }
  }

  lemma RunStartAccepts(s: string)
    ensures Run(Start, s) == NameTail <==> MatchesValidModuleName(s)
  {
    if s == [] {
      return;
    }
    if s[0] == '@' {
      RunScopeLeadAccepts(s[1..]);
    } else if IsLeadChar(s[0]) {
      RunNameTailAccepts(s[1..]);
    } else {
      RunReject(s[1..]);
    }
  }

  /** A segment never contains '/' or '@'. */
  lemma SegmentChars(x: string, k: int)
    requires IsSegment(x) && 0 <= k < |x|
    ensures IsTailChar(x[k])
  {
    if k > 0 {
      assert x[k] == x[1..][k - 1];
    }
  }

  /**
   * What every accepted name looks like: it is not empty, starts with '@' or a
   * lead character, consists of tail characters apart from the scope's '@' and
   * '/', and contains a '/' only when it starts with '@' (so `lodash/fp` is refused).
   */
  lemma AcceptedShape(s: string)
    requires IsBareModuleSource(s)
    ensures |s| > 0 && (s[0] == '@' || IsLeadChar(s[0]))
    ensures forall k | 0 <= k < |s| :: IsTailChar(s[k]) || (k == 0 && s[k] == '@') || (0 < k && s[k] == '/')
    ensures forall k | 0 <= k < |s| && s[k] == '/' :: s[0] == '@'
  {
    if IsSegment(s) {
      forall k | 0 <= k < |s| ensures IsTailChar(s[k]) {
        SegmentChars(s, k);
      }
    } else {
      var t := s[1..];
      var i :| 0 < i < |t| && t[i] == '/' && IsSegment(t[..i]) && IsSegment(t[i + 1..]);
      forall k | 0 < k < |s| && k != i + 1 ensures IsTailChar(s[k]) {
        if k <= i {
          SegmentChars(t[..i], k - 1);
          assert t[..i][k - 1] == s[k];
        } else {
          SegmentChars(t[i + 1..], k - i - 2);
          assert t[i + 1..][k - i - 2] == s[k];
        }
      }
    }
  }

  /** A scoped name is accepted exactly when its scope and its name are segments. */
  lemma {:induction false} ScopedNameAccepted(scope: string, name: string)
    ensures IsBareModuleSource("@" + scope + "/" + name) <==> IsSegment(scope) && IsSegment(name)
  {
    var s := "@" + scope + "/" + name;
    var t := s[1..];
    assert t == scope + "/" + name;
    var n := |scope|;
    assert t[..n] == scope && t[n] == '/' && t[n + 1..] == name;
    if IsSegment(scope) && IsSegment(name) {
      assert 0 < n < |t|;
    }
    if IsBareModuleSource(s) {
      assert !IsSegment(s);
      var i :| 0 < i < |t| && t[i] == '/' && IsSegment(t[..i]) && IsSegment(t[i + 1..]);
      if i < n {
        SegmentChars(t[i + 1..], n - i - 1);
        assert t[i + 1..][n - i - 1] == t[n];
      } else if i > n {
        SegmentChars(t[..i], n);
        assert t[..i][n] == t[n];
      }
    }
  }

  /** Two accepted names: `lodash` and `@scope/pkg`. */
  lemma AcceptsExamples()
    ensures IsBareModuleSource("lodash")
    ensures IsBareModuleSource("@scope/pkg")
  {
    var lodash := "lodash";
    assert AllTail(lodash[1..]);
    assert IsSegment(lodash);
    var scope, pkg := "scope", "pkg";
    assert IsSegment(scope) && IsSegment(pkg);
    ScopedNameAccepted(scope, pkg);
    assert "@scope/pkg" == "@" + scope + "/" + pkg;
  }

  /** Relative and absolute paths, URLs, upper case and unscoped sub-paths are refused. */
  lemma RefusesExamples(s: string)
    requires s in {"", "./local", "/abs/path", "http://x/y", "UPPER", "lodash/fp"}
    ensures !IsBareModuleSource(s)
  {
    if s == "http://x/y" {
      assert s[4] == ':';
      RefusesAt(s, 4);
    } else if s == "lodash/fp" {
      assert s[0] == 'l' && s[6] == '/';
      RefusesAt(s, 6);
    } else {
      assert s != [] ==> s[0] in "./U";
      RefusesAt(s, 0);
    }
  }

  /** A name is refused when it is empty or its character at `k` breaks the shape. */
  lemma RefusesAt(s: string, k: int)
    requires || |s| == 0
             || (k == 0 < |s| && s[0] != '@' && !IsLeadChar(s[0]))
             || (0 < k < |s| && !IsTailChar(s[k]) && !(s[k] == '/' && s[0] == '@'))
    ensures !IsBareModuleSource(s)
  {
    if IsBareModuleSource(s) {
      AcceptedShape(s);
    }
  }
}
