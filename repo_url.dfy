/**
 * The repository URL parser of src/analyze.ts: the regular expression
 *
 *     ^(.*):\/\/([^@]*@)?(.*)\/(.*)\/(.*).git$
 *
 * written out as a decomposition of the URL by four cut points, and the
 * backtracking search that picks one of them, followed by the lower-casing
 * and the GitHub checks of `getRepoData`.
 */
module RepoUrl {
  import opened Wrappers

  /** The characters that `.` in a JavaScript regular expression without the
      `s` flag does not match. `[^@]` matches them. */
  predicate IsLineTerminator(c: char) {
    c == '\n' || c == '\r' || c == '\U{2028}' || c == '\U{2029}'
  }

  /** `.*` can cover s[lo..hi]. */
  predicate DotsIn(s: string, lo: nat, hi: nat)
    requires lo <= hi <= |s|
  {
    forall i | lo <= i < hi :: !IsLineTerminator(s[i])
  }

  /** The end of the pattern, `.git$`: any one character, then "git", then the end. */
  predicate TailOk(s: string) {
    && |s| >= 4
    && !IsLineTerminator(s[|s| - 4])
    && s[|s| - 3] == 'g' && s[|s| - 2] == 'i' && s[|s| - 1] == 't'
  }

  /**
   * A way of matching the pattern against a string s, by position:
   *   scheme = s[..colon], "://" at colon,
   *   user   = s[colon + 3..hostAt] (empty when the optional group is skipped),
   *   host   = s[hostAt..slash1], "/" at slash1,
   *   owner  = s[slash1 + 1..slash2], "/" at slash2,
   *   repo   = s[slash2 + 1..|s| - 4], then `.git`.
   */
  datatype Cut = Cut(colon: nat, hostAt: nat, slash1: nat, slash2: nat)

  /** `([^@]*@)?` covers s[a..u]: either nothing, or non-`@` characters closed by `@`. */
  predicate UserOk(s: string, a: nat, u: nat)
    requires a <= u <= |s|
  {
    u == a || (s[u - 1] == '@' && forall i | a <= i < u - 1 :: s[i] != '@')
  }

  /** Everything from the optional user group to the end matches at c. */
  predicate AfterScheme(s: string, c: Cut) {
    && Ordered(s, c)
    && UserOk(s, c.colon + 3, c.hostAt)
    && DotsIn(s, c.hostAt, |s| - 4)
    && s[c.slash1] == '/' && s[c.slash2] == '/'
  }

  /** The groups of c lie in s in the pattern's order. */
  predicate Ordered(s: string, c: Cut) {
    c.colon + 3 <= c.hostAt <= c.slash1 < c.slash2 < |s| - 4
  }

  /** `^(.*):\/\/` matches s[..p + 3]. */
  predicate SchemeAt(s: string, p: nat)
    requires p + 3 <= |s|
  {
    s[p] == ':' && s[p + 1] == '/' && s[p + 2] == '/' && DotsIn(s, 0, p)
  }

  /** The whole pattern matches s as c describes. */
  predicate Valid(s: string, c: Cut) {
    TailOk(s) && AfterScheme(s, c) && SchemeAt(s, c.colon)
  }

  predicate HasUser(c: Cut) {
    c.hostAt > c.colon + 3
  }

  /** a is tried no later than b by the backtracking matcher: the greedy scheme
      longest first, then the optional user group before its omission, then the
      greedy host longest first, then the greedy owner longest first. */
  predicate Outranks(a: Cut, b: Cut) {
    || a.colon > b.colon
    || (a.colon == b.colon && HasUser(a) && !HasUser(b))
    || (&& a.colon == b.colon && HasUser(a) == HasUser(b)
        && (a.slash1 > b.slash1 || (a.slash1 == b.slash1 && a.slash2 >= b.slash2)))
  }

  /** The repository and owner slices of a match hold no "/". */
  predicate Greedy(s: string, c: Cut)
    requires c.slash1 < |s| - 4 <= |s|
  {
    forall i | c.slash1 < i < |s| - 4 && i != c.slash2 :: s[i] != '/'
  }

  function LastSlash(s: string, lo: nat, hi: nat): (r: Option<nat>)
    requires lo <= hi <= |s|
    ensures r.Some? ==> lo <= r.value < hi && s[r.value] == '/'
    ensures r.Some? ==> forall i | r.value < i < hi :: s[i] != '/'
    ensures r.None? ==> forall i | lo <= i < hi :: s[i] != '/'
    decreases hi - lo
  {
    if lo == hi then None
    else if s[hi - 1] == '/' then Some(hi - 1)
    else LastSlash(s, lo, hi - 1)
  }

  function FirstAt(s: string, lo: nat, hi: nat): (r: Option<nat>)
    requires lo <= hi <= |s|
    ensures r.Some? ==> lo <= r.value < hi && s[r.value] == '@'
    ensures r.Some? ==> forall i | lo <= i < r.value :: s[i] != '@'
    ensures r.None? ==> forall i | lo <= i < hi :: s[i] != '@'
    decreases hi - lo
  {
    if lo == hi then None
    else if s[lo] == '@' then Some(lo)
    else FirstAt(s, lo + 1, hi)
  }

  /** `(.*)\/(.*)\/(.*)` over s[lo..hi], greedy: the two slashes it settles on. */
  function SplitPath(s: string, lo: nat, hi: nat): (r: Option<(nat, nat)>)
    requires lo <= hi <= |s|
    ensures r.Some? ==> lo <= r.value.0 < r.value.1 < hi && DotsIn(s, lo, hi)
    ensures r.Some? ==> s[r.value.0] == '/' && s[r.value.1] == '/'
    ensures r.Some? ==> forall i | r.value.0 < i < hi && i != r.value.1 :: s[i] != '/'
  {
    if !DotsIn(s, lo, hi) then None
    else
      match LastSlash(s, lo, hi)
      case None => None
      case Some(k) =>
        match LastSlash(s, lo, k)
        case None => None
        case Some(j) => Some((j, k))
  }

  /** `([^@]*@)?(.*)\/(.*)\/(.*)` over what lies between "://" at colon and `.git`;
      the user group is tried first, then left out. */
  function MatchAfterScheme(s: string, colon: nat): (r: Option<Cut>)
    requires colon + 7 <= |s|
    ensures r.Some? ==> r.value.colon == colon && AfterScheme(s, r.value) && Greedy(s, r.value)
  {
    var a, e := colon + 3, |s| - 4;
    var at := FirstAt(s, a, e);
    if at.Some? && SplitPath(s, at.value + 1, e).Some? then
      var hs := SplitPath(s, at.value + 1, e).value;
      Some(Cut(colon, at.value + 1, hs.0, hs.1))
    else
      match SplitPath(s, a, e)
      case None => None
      case Some(hs) => Some(Cut(colon, a, hs.0, hs.1))
  }

  /** The greedy scheme: "://" positions tried from the last one down. */
  function Scan(s: string, p: nat): (r: Option<Cut>)
    requires TailOk(s) && p + 7 <= |s|
    ensures r.Some? ==> Valid(s, r.value) && Greedy(s, r.value) && r.value.colon <= p
    decreases p
  {
    if SchemeAt(s, p) && MatchAfterScheme(s, p).Some? then MatchAfterScheme(s, p)
    else if p == 0 then None
    else Scan(s, p - 1)
  }

  /** `REPO_REGEX.exec(s)`: the match the backtracking matcher finds, if any. */
  function Exec(s: string): (r: Option<Cut>)
    ensures r.Some? ==> Valid(s, r.value) && Greedy(s, r.value)
  {
    if TailOk(s) && |s| >= 7 then Scan(s, |s| - 7) else None
  }

  lemma SplitPathFirst(s: string, lo: nat, hi: nat, h: nat, o: nat)
    requires lo <= h < o < hi <= |s| && s[h] == '/' && s[o] == '/' && DotsIn(s, lo, hi)
    ensures SplitPath(s, lo, hi).Some?
    ensures var r := SplitPath(s, lo, hi).value; r.0 > h || (r.0 == h && r.1 >= o)
  {
    var k := LastSlash(s, lo, hi);
    assert k.Some? && k.value >= o;
    var j := LastSlash(s, lo, k.value);
    assert j.Some? && j.value >= h;
  }

  lemma AfterSchemeFirst(s: string, c: Cut)
    requires AfterScheme(s, c)
    ensures MatchAfterScheme(s, c.colon).Some?
    ensures Outranks(MatchAfterScheme(s, c.colon).value, c)
  {
    var a, e := c.colon + 3, |s| - 4;
    var at := FirstAt(s, a, e);
    if HasUser(c) {
      assert at == Some(c.hostAt - 1);
      SplitPathFirst(s, c.hostAt, e, c.slash1, c.slash2);
    } else {
      SplitPathFirst(s, a, e, c.slash1, c.slash2);
    }
  }

  lemma {:induction false} ScanFindsFirst(s: string, p: nat, c: Cut)
    requires Valid(s, c) && c.colon <= p && p + 7 <= |s|
    ensures Scan(s, p).Some? && Outranks(Scan(s, p).value, c)
    decreases p
  {
    if p == c.colon {
      AfterSchemeFirst(s, c);
    } else if !(SchemeAt(s, p) && MatchAfterScheme(s, p).Some?) {
      ScanFindsFirst(s, p - 1, c);
    }
  }

  /** Completeness and order: whenever the pattern can match, `exec` finds a
      match, and it is the first in the backtracking order. */
  lemma ExecFindsFirst(s: string, c: Cut)
    requires Valid(s, c)
    ensures Exec(s).Some? && Outranks(Exec(s).value, c)
  {
    ScanFindsFirst(s, |s| - 7, c);
  }

  /** Two matches that outrank each other are the same match, so the one
      `Exec` returns is determined. */
  lemma CutsAgree(s: string, a: Cut, b: Cut)
    requires Valid(s, a) && Valid(s, b) && Outranks(a, b) && Outranks(b, a)
    ensures a == b
  {
  }

  /** A match whose scheme ends at the last place `^(.*):\/\/` can end, that
      takes the user group unless no `@` precedes the host's closing slash,
      and that ends the host and the owner at the last two slashes is the one
      `exec` returns. */
  lemma ExecIs(s: string, c: Cut)
    requires Valid(s, c) && Greedy(s, c)
    requires forall q | c.colon < q && q + 3 <= |s| :: !SchemeAt(s, q)
    requires !HasUser(c) ==> forall q | c.colon + 3 <= q < c.slash1 :: s[q] != '@'
    ensures Exec(s) == Some(c)
  {
    ExecFindsFirst(s, c);
    var x := Exec(s).value;
    assert Outranks(c, x);
    CutsAgree(s, x, c);
  }

  // ---------------------------------------------------------------------------
  // The captures, lower-cased, and the checks of getRepoData

  /** The five capture groups of a match, in the order of the pattern. */
  datatype Groups = Groups(scheme: string, user: string, host: string, owner: string, repo: string)

  function GroupsOf(s: string, c: Cut): Groups
    requires Ordered(s, c)
  {
    Groups(s[..c.colon], s[c.colon + 3..c.hostAt], s[c.hostAt..c.slash1],
           s[c.slash1 + 1..c.slash2], s[c.slash2 + 1..|s| - 4])
  }

  /** The string the pattern spells from five groups and the character
      standing for the unescaped `.` before `git`. */
  function Spell(g: Groups, d: char): string {
    g.scheme + "://" + g.user + g.host + "/" + g.owner + "/" + g.repo + [d] + "git"
  }

  /** Groups each of which its part of the pattern can match. */
  predicate Fits(g: Groups, d: char) {
    && DotsIn(g.scheme, 0, |g.scheme|)
    && UserOk(g.user, 0, |g.user|)
    && DotsIn(g.host, 0, |g.host|)
    && DotsIn(g.owner, 0, |g.owner|)
    && DotsIn(g.repo, 0, |g.repo|)
    && !IsLineTerminator(d)
  }

  /** Where the pattern cuts the string it spells from g. */
  function CutOf(g: Groups): Cut {
    var hostAt := |g.scheme| + 3 + |g.user|;
    var slash1 := hostAt + |g.host|;
    Cut(|g.scheme|, hostAt, slash1, slash1 + 1 + |g.owner|)
  }

  /** A match decomposes the string: its groups, put back together with the
      literal parts of the pattern, spell the string again (this needs only
      the literal parts of a match in their places). */
  lemma GroupsSpellUrl(s: string, c: Cut)
    requires Ordered(s, c) && s[c.colon] == ':' && s[c.colon + 1] == '/' && s[c.colon + 2] == '/'
    requires s[c.slash1] == '/' && s[c.slash2] == '/'
    requires s[|s| - 3] == 'g' && s[|s| - 2] == 'i' && s[|s| - 1] == 't'
    ensures s == Spell(GroupsOf(s, c), s[|s| - 4])
  {
    ReassembleFront(s, c);
    ReassembleBack(s, c);
  }

  /** s up to the first '/' after the host, one group at a time. */
  lemma ReassembleFront(s: string, c: Cut)
    requires Ordered(s, c) && s[c.colon] == ':' && s[c.colon + 1] == '/' && s[c.colon + 2] == '/'
    ensures s[..c.slash1] == s[..c.colon] + "://" + s[c.colon + 3..c.hostAt] + s[c.hostAt..c.slash1]
  {
    Glue(s, 0, c.colon, c.colon + 3);
    assert s[c.colon..c.colon + 3] == "://";
    Glue(s, 0, c.colon + 3, c.hostAt);
    Glue(s, 0, c.hostAt, c.slash1);
  }

  /** s from the first '/' after the host, one group at a time. */
  lemma ReassembleBack(s: string, c: Cut)
    requires Ordered(s, c) && s[c.slash1] == '/' && s[c.slash2] == '/'
    requires s[|s| - 3] == 'g' && s[|s| - 2] == 'i' && s[|s| - 1] == 't'
    ensures s == s[..c.slash1] + "/" + s[c.slash1 + 1..c.slash2] + "/" + s[c.slash2 + 1..|s| - 4] + [s[|s| - 4]] + "git"
  {
    var e := |s| - 4;
    Glue(s, 0, c.slash1, c.slash1 + 1);
    assert s[c.slash1..c.slash1 + 1] == "/";
    Glue(s, 0, c.slash1 + 1, c.slash2);
    Glue(s, 0, c.slash2, c.slash2 + 1);
    assert s[c.slash2..c.slash2 + 1] == "/";
    Glue(s, 0, c.slash2 + 1, e);
    Glue(s, 0, e, e + 1);
    assert s[e..e + 1] == [s[e]];
    Glue(s, 0, e + 1, |s|);
    assert s[e + 1..] == "git";
    assert s[..|s|] == s;
  }

  /** Adjacent slices join up. */
  lemma Glue(s: string, i: nat, j: nat, k: nat)
    requires i <= j <= k <= |s|
    ensures s[i..k] == s[i..j] + s[j..k]
  {
  }

  /** Where each group and each literal part lies in the string spelled from g. */
  lemma SpellSlices(g: Groups, d: char)
    ensures var s, c := Spell(g, d), CutOf(g);
      var e := c.slash2 + 1 + |g.repo|;
      && |s| == e + 4
      && s[..c.colon] == g.scheme && s[c.colon] == ':' && s[c.colon + 1] == '/' && s[c.colon + 2] == '/'
      && s[c.colon + 3..c.hostAt] == g.user && s[c.hostAt..c.slash1] == g.host && s[c.slash1] == '/'
      && s[c.slash1 + 1..c.slash2] == g.owner && s[c.slash2] == '/' && s[c.slash2 + 1..e] == g.repo
      && s[e] == d && s[e + 1] == 'g' && s[e + 2] == 'i' && s[e + 3] == 't'
  {
    var s := Spell(g, d);
    var p1 := g.scheme + "://";
    var p2 := p1 + g.user;
    var p3 := p2 + g.host;
    var p4 := p3 + "/";
    var p5 := p4 + g.owner;
    var p6 := p5 + "/";
    var p7 := p6 + g.repo;
    var p8 := p7 + [d];
    var c := CutOf(g);
    assert |p1| == c.colon + 3 && |p2| == c.hostAt && |p3| == c.slash1 && |p5| == c.slash2;
    assert s == p8 + "git";
    Piece(s, p8, "git");
    Piece(s, p7, [d]);
    Piece(s, p6, g.repo);
    Piece(s, p5, "/");
    Piece(s, p4, g.owner);
    Piece(s, p3, "/");
    Piece(s, p2, g.host);
    Piece(s, p1, g.user);
    Piece(s, g.scheme, "://");
  }

  /** A string that starts with p + q holds q right after p. */
  lemma Piece(s: string, p: string, q: string)
    requires |p| + |q| <= |s| && s[..|p| + |q|] == p + q
    ensures s[..|p|] == p && s[|p|..|p| + |q|] == q
    ensures |q| > 0 ==> s[|p|] == q[0]
    ensures |q| > 2 ==> s[|p| + 1] == q[1] && s[|p| + 2] == q[2]
  {
    assert s[..|p|] == (p + q)[..|p|];
    assert s[|p|..|p| + |q|] == (p + q)[|p|..];
  }

  /** No character of s[lo..hi] is x when its copy part holds none. */
  lemma Avoids(s: string, lo: nat, hi: nat, part: string, x: char)
    requires lo <= hi <= |s| && s[lo..hi] == part && x !in part
    ensures forall i | lo <= i < hi :: s[i] != x
  {
    forall i | lo <= i < hi ensures s[i] != x {
      assert s[i] == part[i - lo];
    }
  }

  lemma DotsCopy(s: string, lo: nat, hi: nat, part: string)
    requires lo <= hi <= |s| && s[lo..hi] == part && DotsIn(part, 0, |part|)
    ensures DotsIn(s, lo, hi)
  {
    forall i | lo <= i < hi ensures !IsLineTerminator(s[i]) {
      assert s[i] == part[i - lo];
    }
  }

  /** Conversely, fitting groups spelled out are matched with exactly those
      groups (though `exec` may prefer another match of the same string). */
  lemma PartsMatch(g: Groups, d: char)
    requires Fits(g, d)
    ensures Valid(Spell(g, d), CutOf(g)) && GroupsOf(Spell(g, d), CutOf(g)) == g
  {
    SpellEnds(g, d);
    SpellAfterScheme(g, d);
    SpellSlices(g, d);
  }

  lemma SpellEnds(g: Groups, d: char)
    requires Fits(g, d)
    ensures var s := Spell(g, d); TailOk(s) && |g.scheme| + 3 <= |s| && SchemeAt(s, |g.scheme|)
  {
    var s := Spell(g, d);
    SpellSlices(g, d);
    DotsCopy(s, 0, |g.scheme|, g.scheme);
  }

  lemma SpellAfterScheme(g: Groups, d: char)
    requires Fits(g, d)
    ensures AfterScheme(Spell(g, d), CutOf(g))
  {
    SpellSlices(g, d);
    SpellDots(g, d);
    SpellUser(g, d);
  }

  lemma SpellDots(g: Groups, d: char)
    requires Fits(g, d)
    ensures var s := Spell(g, d); |s| >= 4 && CutOf(g).hostAt <= |s| - 4 && DotsIn(s, CutOf(g).hostAt, |s| - 4)
  {
    var s, c := Spell(g, d), CutOf(g);
    var e := |s| - 4;
    SpellSlices(g, d);
    DotsCopy(s, c.hostAt, c.slash1, g.host);
    DotsCopy(s, c.slash1 + 1, c.slash2, g.owner);
    DotsCopy(s, c.slash2 + 1, e, g.repo);
  }

  lemma SpellUser(g: Groups, d: char)
    requires Fits(g, d)
    ensures var s := Spell(g, d); CutOf(g).hostAt <= |s| && UserOk(s, CutOf(g).colon + 3, CutOf(g).hostAt)
  {
    var s, c := Spell(g, d), CutOf(g);
    SpellSlices(g, d);
    if g.user != [] {
      assert s[c.hostAt - 1] == g.user[|g.user| - 1];
      Avoids(s, c.colon + 3, c.hostAt - 1, g.user[..|g.user| - 1], '@');
    }
  }

  /** Groups no other match can compete with: nothing after "://" is a ':',
      the owner and the repository hold no '/', and, without a user part,
      nothing before `.git` is an '@'. */
  predicate Plain(g: Groups, d: char) {
    && Fits(g, d) && d != ':'
    && ':' !in g.user && ':' !in g.host && ':' !in g.owner && ':' !in g.repo
    && '/' !in g.owner && '/' !in g.repo
    && (g.user == [] ==> '@' !in g.host && '@' !in g.owner && '@' !in g.repo)
  }

  /** The round trip: spelling plain groups and matching the result gives
      the groups back. */
  lemma {:induction false} ExecSpell(g: Groups, d: char)
    requires Plain(g, d)
    ensures Exec(Spell(g, d)) == Some(CutOf(g))
    ensures GroupsOf(Spell(g, d), CutOf(g)) == g
  {
    PartsMatch(g, d);
    SpellGreedy(g, d);
    SpellNoColon(g, d);
    if g.user == [] {
      SpellNoAt(g, d);
    }
    ExecIs(Spell(g, d), CutOf(g));
  }

  lemma SpellGreedy(g: Groups, d: char)
    requires '/' !in g.owner && '/' !in g.repo
    ensures Greedy(Spell(g, d), CutOf(g))
  {
    var s, c := Spell(g, d), CutOf(g);
    SpellSlices(g, d);
    Avoids(s, c.slash1 + 1, c.slash2, g.owner, '/');
    Avoids(s, c.slash2 + 1, |s| - 4, g.repo, '/');
  }

  lemma SpellNoColon(g: Groups, d: char)
    requires d != ':' && ':' !in g.user && ':' !in g.host && ':' !in g.owner && ':' !in g.repo
    ensures var s := Spell(g, d); forall q | CutOf(g).colon < q < |s| :: s[q] != ':'
  {
    var s, c := Spell(g, d), CutOf(g);
    var e := |s| - 4;
    SpellSlices(g, d);
    Avoids(s, c.colon + 3, c.hostAt, g.user, ':');
    Avoids(s, c.hostAt, c.slash1, g.host, ':');
    Avoids(s, c.slash1 + 1, c.slash2, g.owner, ':');
    Avoids(s, c.slash2 + 1, e, g.repo, ':');
    forall q | c.colon < q < |s| ensures s[q] != ':' {
      if q < c.colon + 3 {
      } else if q < c.hostAt {
      } else if q < c.slash1 {
      } else if q == c.slash1 {
      } else if q < c.slash2 {
      } else if q == c.slash2 {
      } else if q < e {
      }
    }
  }

  lemma SpellNoAt(g: Groups, d: char)
    requires g.user == [] && '@' !in g.host && '@' !in g.owner && '@' !in g.repo
    ensures var s, c := Spell(g, d), CutOf(g); forall q | c.colon + 3 <= q < |s| - 4 :: s[q] != '@'
  {
    var s, c := Spell(g, d), CutOf(g);
    var e := |s| - 4;
    SpellSlices(g, d);
    Avoids(s, c.hostAt, c.slash1, g.host, '@');
    Avoids(s, c.slash1 + 1, c.slash2, g.owner, '@');
    Avoids(s, c.slash2 + 1, e, g.repo, '@');
    forall q | c.colon + 3 <= q < e ensures s[q] != '@' {
      if q < c.slash1 {
      } else if q == c.slash1 {
      } else if q < c.slash2 {
      } else if q == c.slash2 {
      }
    }
  }

  /** `String.prototype.toLowerCase` on ASCII letters. */
  function LowerChar(c: char): char {
    if 'A' <= c <= 'Z' then (c as int + 32) as char else c
  }

  function Lower(s: string): (r: string)
    ensures |r| == |s| && forall i | 0 <= i < |s| :: r[i] == LowerChar(s[i])
    ensures IsLowered(r)
  {
    seq(|s|, i requires 0 <= i < |s| => LowerChar(s[i]))
  }

  predicate IsLowered(s: string) {
    forall i | 0 <= i < |s| :: !('A' <= s[i] <= 'Z')
  }

  /** The GitHub repository a URL names: its owner and name, lower-cased. */
  datatype RepoRef = RepoRef(owner: string, repo: string)

  /** The parsing half of `getRepoData`: the URL is rejected when the pattern
      does not match, when the lower-cased host is not "github.com", or when the
      owner or the repository capture is empty. */
  function Locate(url: string): Option<RepoRef> {
    match Exec(url)
    case None => None
    case Some(c) =>
      var g := GroupsOf(url, c);
      var host, owner, repo := Lower(g.host), Lower(g.owner), Lower(g.repo);
      if host != "github.com" then None
      else if owner == "" || repo == "" then None
      else Some(RepoRef(owner, repo))
  }

  /** A URL names a repository exactly when it matches, its host is
      `github.com` up to case and both its owner and its repository name are
      non-empty; the reference is then the lower-cased owner and name, which
      are non-empty and contain no `/`. */
  lemma LocateSpec(url: string)
    ensures Locate(url).Some? <==>
      && Exec(url).Some?
      && var g := GroupsOf(url, Exec(url).value);
         Lower(g.host) == "github.com" && g.owner != "" && g.repo != ""
    ensures Locate(url).Some? ==>
      var g := GroupsOf(url, Exec(url).value);
      Locate(url).value == RepoRef(Lower(g.owner), Lower(g.repo))
    ensures Locate(url).Some? ==>
      && Locate(url).value.owner != "" && Locate(url).value.repo != ""
      && '/' !in Locate(url).value.owner && '/' !in Locate(url).value.repo
      && IsLowered(Locate(url).value.owner) && IsLowered(Locate(url).value.repo)
  {
  }

  /** Lower-casing changes letters only, so it never turns a character into
      or out of one the pattern tests for. */
  lemma LowerKeepsClass(a: char, b: char)
    requires LowerChar(a) == LowerChar(b)
    ensures (a == ':') == (b == ':') && (a == '/') == (b == '/') && (a == '@') == (b == '@')
    ensures IsLineTerminator(a) == IsLineTerminator(b)
  {
  }

  /** Whether a Cut is a match depends on the string only up to case, given
      the case-sensitive `git` at its end. */
  lemma ValidUpToCase(u1: string, u2: string, c: Cut)
    requires Lower(u1) == Lower(u2) && TailOk(u2) && Valid(u1, c)
    ensures Valid(u2, c)
  {
    forall i | 0 <= i < |u1|
      ensures (u1[i] == ':') == (u2[i] == ':') && (u1[i] == '/') == (u2[i] == '/')
      ensures (u1[i] == '@') == (u2[i] == '@') && IsLineTerminator(u1[i]) == IsLineTerminator(u2[i])
    {
      assert Lower(u1)[i] == Lower(u2)[i];
      LowerKeepsClass(u1[i], u2[i]);
    }
  }

  lemma LowerSlice(u1: string, u2: string, i: nat, j: nat)
    requires Lower(u1) == Lower(u2) && i <= j <= |u1|
    ensures Lower(u1[i..j]) == Lower(u2[i..j])
  {
    assert forall k | 0 <= k < j - i :: Lower(u1[i..j])[k] == Lower(u1)[i + k] == Lower(u2)[i + k] == Lower(u2[i..j])[k];
  }

  /** Two URLs equal up to case that both match are matched at the same
      indices. */
  lemma ExecUpToCase(u1: string, u2: string)
    requires Lower(u1) == Lower(u2) && Exec(u1).Some? && Exec(u2).Some?
    ensures Exec(u1) == Exec(u2)
  {
    var x1, x2 := Exec(u1).value, Exec(u2).value;
    ValidUpToCase(u1, u2, x1);
    ValidUpToCase(u2, u1, x2);
    ExecFindsFirst(u2, x1);
    ExecFindsFirst(u1, x2);
    CutsAgree(u1, x1, x2);
  }

  /** Parsing is case-insensitive: two URLs the pattern matches that differ
      only in the case of their letters name the same repository, or are both
      rejected. */
  lemma LocateIgnoresCase(u1: string, u2: string)
    requires Lower(u1) == Lower(u2) && Exec(u1).Some? && Exec(u2).Some?
    ensures Locate(u1) == Locate(u2)
  {
    ExecUpToCase(u1, u2);
    var c := Exec(u1).value;
    LowerSlice(u1, u2, c.hostAt, c.slash1);
    LowerSlice(u1, u2, c.slash1 + 1, c.slash2);
    LowerSlice(u1, u2, c.slash2 + 1, |u1| - 4);
    LocateByParts(u1, u2, c);
  }

  lemma LocateByParts(u1: string, u2: string, c: Cut)
    requires Exec(u1) == Exec(u2) == Some(c)
    requires var g1, g2 := GroupsOf(u1, c), GroupsOf(u2, c);
      Lower(g1.host) == Lower(g2.host) && Lower(g1.owner) == Lower(g2.owner) && Lower(g1.repo) == Lower(g2.repo)
    ensures Locate(u1) == Locate(u2)
  {
  }

  /** The pattern's `git` is case-sensitive: an upper-case suffix is rejected
      although the host is compared after lower-casing. */
  lemma UpperCaseSuffixRejected()
    ensures Locate("https://github.com/foo/bar.GIT") == None
  {
  }

  /** What `Locate` makes of a string once its match is known. */
  lemma LocateOf(s: string, g: Groups)
    requires Exec(s).Some? && GroupsOf(s, Exec(s).value) == g
    ensures Locate(s) == if Lower(g.host) != "github.com" || g.owner == "" || g.repo == "" then None
                         else Some(RepoRef(Lower(g.owner), Lower(g.repo)))
  {
  }

  /** What `Locate` makes of a spelled URL. */
  lemma LocateSpell(g: Groups, d: char)
    requires Plain(g, d)
    ensures Locate(Spell(g, d)) == if Lower(g.host) != "github.com" || g.owner == "" || g.repo == "" then None
                                   else Some(RepoRef(Lower(g.owner), Lower(g.repo)))
  {
    ExecSpell(g, d);
    LocateOf(Spell(g, d), g);
  }

  const HttpsGroups := Groups("https", "", "github.com", "foo", "bar")
  const UserGroups := Groups("git", "x@", "GITHUB.COM", "Foo", "Bar")
  const GitlabGroups := Groups("https", "", "gitlab.com", "foo", "bar")
  const NoRepoGroups := Groups("https", "", "github.com", "foo", "")

  lemma HttpsFits()
    ensures Fits(HttpsGroups, '.')
  {
  }

  lemma HttpsParts()
    ensures Plain(HttpsGroups, '.')
  {
    HttpsFits();
  }

  /** Plainness does not depend on which character stands for the dot. */
  lemma PlainAnyDot(g: Groups, d: char, d2: char)
    requires Plain(g, d) && !IsLineTerminator(d2) && d2 != ':'
    ensures Plain(g, d2)
  {
  }

  lemma HttpsSpelling()
    ensures Spell(HttpsGroups, '.') == "https://github.com/foo/bar.git"
  {
  }

  lemma HttpsSpellingAnyDot()
    ensures Spell(HttpsGroups, '_') == "https://github.com/foo/bar_git"
  {
  }

  lemma LowerPlain()
    ensures Lower("github.com") == "github.com" && Lower("foo") == "foo" && Lower("bar") == "bar"
  {
    LowerKeepsLowered("github.com");
    LowerKeepsLowered("foo");
    LowerKeepsLowered("bar");
  }

  lemma PlainHttpsUrl()
    ensures Locate("https://github.com/foo/bar.git") == Some(RepoRef("foo", "bar"))
  {
    HttpsParts();
    HttpsSpelling();
    LowerPlain();
    LocateSpell(HttpsGroups, '.');
  }

  /** The `.` before `git` is not escaped, so any character stands in for it. */
  lemma UnescapedDot()
    ensures Locate("https://github.com/foo/bar_git") == Some(RepoRef("foo", "bar"))
  {
    HttpsParts();
    PlainAnyDot(HttpsGroups, '.', '_');
    HttpsSpellingAnyDot();
    LowerPlain();
    LocateSpell(HttpsGroups, '_');
  }

  lemma UserFits()
    ensures Fits(UserGroups, '.')
  {
  }

  lemma UserParts()
    ensures Plain(UserGroups, '.')
  {
    UserFits();
  }

  lemma UserSpelling()
    ensures Spell(UserGroups, '.') == "git://x@GITHUB.COM/Foo/Bar.git"
  {
  }

  lemma UserAndUpperCaseUrl()
    ensures Locate("git://x@GITHUB.COM/Foo/Bar.git") == Some(RepoRef("foo", "bar"))
  {
    UserParts();
    UserSpelling();
    LowerExample();
    LocateSpell(UserGroups, '.');
  }

  lemma LowerExample()
    ensures Lower("GITHUB.COM") == "github.com" && Lower("Foo") == "foo" && Lower("Bar") == "bar"
  {
    var host, owner, repo := Lower("GITHUB.COM"), Lower("Foo"), Lower("Bar");
    assert host[0] == 'g' && host[1] == 'i' && host[2] == 't' && host[3] == 'h' && host[4] == 'u';
    assert host[5] == 'b' && host[6] == '.' && host[7] == 'c' && host[8] == 'o' && host[9] == 'm';
    assert owner[0] == 'f' && owner[1] == 'o' && owner[2] == 'o';
    assert repo[0] == 'b' && repo[1] == 'a' && repo[2] == 'r';
  }

  lemma GitlabFits()
    ensures Fits(GitlabGroups, '.')
  {
  }

  lemma GitlabParts()
    ensures Plain(GitlabGroups, '.')
  {
    GitlabFits();
  }

  lemma GitlabSpelling()
    ensures Spell(GitlabGroups, '.') == "https://gitlab.com/foo/bar.git"
  {
  }

  /** A host other than github.com is rejected. */
  lemma OtherHostRejected()
    ensures Locate("https://gitlab.com/foo/bar.git") == None
  {
    GitlabParts();
    GitlabSpelling();
    LowerKeepsLowered("gitlab.com");
    assert "gitlab.com"[3] != "github.com"[3];
    LocateSpell(GitlabGroups, '.');
  }

  lemma NoRepoFits()
    ensures Fits(NoRepoGroups, '.')
  {
  }

  lemma NoRepoParts()
    ensures Plain(NoRepoGroups, '.')
  {
    NoRepoFits();
  }

  lemma NoRepoSpelling()
    ensures Spell(NoRepoGroups, '.') == "https://github.com/foo/.git"
  {
  }

  /** An empty repository name is rejected. */
  lemma EmptyRepoRejected()
    ensures Locate("https://github.com/foo/.git") == None
  {
    NoRepoParts();
    NoRepoSpelling();
    LocateSpell(NoRepoGroups, '.');
  }

  lemma LowerKeepsLowered(s: string)
    requires IsLowered(s)
    ensures Lower(s) == s
  {
  }
}
