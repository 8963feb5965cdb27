/**
 * The pieces of java.lang.String and of java.util.regex that the three
 * scanners rely on, written out over `string`.  Case mapping covers ASCII
 * only; every other character is left as it is.
 */
module JavaText {
  import opened Wrappers

  predicate StartsWith(s: string, prefix: string) {
    |prefix| <= |s| && s[..|prefix|] == prefix
  }

  predicate EndsWith(s: string, suffix: string) {
    |suffix| <= |s| && s[|s| - |suffix|..] == suffix
  }

  /** Index of the first `c` in `s` at or after `from`, or |s| when there is none (String.indexOf). */
  function IndexFrom(s: string, c: char, from: nat): (k: nat)
    requires from <= |s|
    ensures from <= k <= |s|
    ensures k < |s| ==> s[k] == c
    ensures forall j :: from <= j < k ==> s[j] != c
    decreases |s| - from
  {
    if from == |s| || s[from] == c then from else IndexFrom(s, c, from + 1)
  }

  /** A prefix made of two parts: the first part, then the second one right after it. */
  lemma StartsWithAppend(s: string, a: string, b: string)
    ensures StartsWith(s, a + b) <==> StartsWith(s, a) && StartsWith(s[|a|..], b)
  {
    if StartsWith(s, a + b) {
      assert s[..|a|] == (a + b)[..|a|] == a;
      assert s[|a|..][..|b|] == (a + b)[|a|..] == b;
    }
    if StartsWith(s, a) && StartsWith(s[|a|..], b) {
      assert s[..|a| + |b|] == s[..|a|] + s[|a|..][..|b|];
    }
  }

  /** IndexFrom is the first `c` at or after `from`: any position with that property is its result. */
  lemma IndexFromIs(s: string, c: char, from: nat, k: nat)
    requires from <= k <= |s| && (k < |s| ==> s[k] == c)
    requires forall j :: from <= j < k ==> s[j] != c
    ensures IndexFrom(s, c, from) == k
  {
  }

  // ---------------------------------------------------------------- blanks and trim

  /** Character.isWhitespace. */
  predicate IsJavaWhitespace(c: char) {
    || c == ' ' || '\t' <= c <= '\r' || '\U{1C}' <= c <= '\U{1F}'
    || c == '\U{1680}' || '\U{2000}' <= c <= '\U{2006}' || '\U{2008}' <= c <= '\U{200A}'
    || c == '\U{2028}' || c == '\U{2029}' || c == '\U{205F}' || c == '\U{3000}'
  }

  /** String.isBlank: empty, or whitespace only. */
  predicate IsBlank(s: string) {
    forall i :: 0 <= i < |s| ==> IsJavaWhitespace(s[i])
  }

  /** What String.trim leaves: no character at or below U+0020 at either end. */
  predicate IsTrimmed(s: string) {
    s == [] || (s[0] > ' ' && s[|s| - 1] > ' ')
  }

  /** Drops leading characters at or below U+0020 (the first loop of String.trim). */
  function TrimStart(s: string): (r: string)
    ensures |r| <= |s|
    ensures r == [] || r[0] > ' '
    ensures s == [] || s[0] > ' ' ==> r == s
  {
    if s != [] && s[0] <= ' ' then TrimStart(s[1..]) else s
  }

  /** Drops trailing characters at or below U+0020 (the second loop of String.trim). */
  function TrimEnd(s: string): (r: string)
    ensures |r| <= |s|
    ensures r == [] || (r[0] == s[0] && r[|r| - 1] > ' ')
  {
    if s != [] && s[|s| - 1] <= ' ' then TrimEnd(s[..|s| - 1]) else s
  }

  /** The first loop of String.trim leaves a suffix, and only drops characters at or below U+0020. */
  lemma {:induction false} TrimStartSpec(s: string)
    ensures TrimStart(s) == s[|s| - |TrimStart(s)|..]
    ensures forall k :: 0 <= k < |s| - |TrimStart(s)| ==> s[k] <= ' '
    decreases |s|
  {
    if s != [] && s[0] <= ' ' {
      TrimStartSpec(s[1..]);
      forall k | 1 <= k < |s| - |TrimStart(s)| ensures s[k] <= ' ' {
        assert s[k] == s[1..][k - 1];
      }
    }
  }

  /** The second loop of String.trim leaves a prefix, and only drops characters at or below U+0020. */
  lemma {:induction false} TrimEndSpec(s: string)
    ensures TrimEnd(s) == s[..|TrimEnd(s)|]
    ensures forall k :: |TrimEnd(s)| <= k < |s| ==> s[k] <= ' '
    decreases |s|
  {
    if s != [] && s[|s| - 1] <= ' ' {
      TrimEndSpec(s[..|s| - 1]);
    }
  }

  /** The trailing loop of String.trim stops at the first character above U+0020, so it never reaches into a left part. */
  lemma {:induction false} TrimEndAppend(a: string, b: string)
    requires b != [] && b[0] > ' '
    ensures TrimEnd(a + b) == a + TrimEnd(b)
    decreases |b|
  {
    if b[|b| - 1] <= ' ' {
      assert |b| > 1;
      assert (a + b)[..|a + b| - 1] == a + b[..|b| - 1];
      TrimEndAppend(a, b[..|b| - 1]);
    }
  }

  /** How many leading characters String.trim drops. */
  function TrimOffset(s: string): nat {
    |s| - |TrimStart(s)|
  }

  /** String.trim: no character at or below U+0020 is left at either end. */
  function Trim(s: string): (r: string)
    ensures |r| <= |s|
    ensures IsTrimmed(r)
    ensures IsTrimmed(s) ==> r == s
  {
    TrimEnd(TrimStart(s))
  }

  /**
   * The result of String.trim is the slice of `s` left after dropping every
   * leading and every trailing character at or below U+0020.
   */
  lemma TrimSpec(s: string)
    ensures TrimOffset(s) + |Trim(s)| <= |s|
    ensures Trim(s) == s[TrimOffset(s)..TrimOffset(s) + |Trim(s)|]
    ensures forall k :: 0 <= k < TrimOffset(s) ==> s[k] <= ' '
    ensures forall k :: TrimOffset(s) + |Trim(s)| <= k < |s| ==> s[k] <= ' '
  {
    var t := TrimStart(s);
    TrimStartSpec(s);
    TrimEndSpec(t);
    SliceOfSuffix(s, TrimOffset(s), t, Trim(s));
  }

  /** A prefix of a suffix of `s` is a slice of `s`, and what follows it in the suffix follows it in `s`. */
  lemma SliceOfSuffix(s: string, o: nat, t: string, e: string)
    requires o <= |s| && t == s[o..] && |e| <= |t| && e == t[..|e|]
    ensures o + |e| <= |s| && e == s[o..o + |e|]
    ensures forall k :: o + |e| <= k < |s| ==> s[k] == t[k - o]
  {
  }

  /** Trimming only drops characters: every character left was in the text. */
  lemma TrimChars(s: string)
    ensures forall c :: c in Trim(s) ==> c in s
  {
    var r := Trim(s);
    TrimSpec(s);
    forall c | c in r ensures c in s {
      var i :| 0 <= i < |r| && r[i] == c;
      assert s[TrimOffset(s) + i] == c;
    }
  }

  // ---------------------------------------------------------------- ASCII case mapping

  predicate IsUpperAscii(c: char) {
    'A' <= c <= 'Z'
  }

  function LowerChar(c: char): char {
    if IsUpperAscii(c) then (c as int + 32) as char else c
  }

  function UpperChar(c: char): char {
    if 'a' <= c <= 'z' then (c as int - 32) as char else c
  }

  /** toLowerCase(Locale.ROOT), ASCII letters only: 'A'..'Z' become 'a'..'z', everything else is kept. */
  function ToLowerCase(s: string): (r: string)
    ensures |r| == |s|
    ensures forall i :: 0 <= i < |s| ==> IsUpperAscii(s[i]) ==> r[i] as int == s[i] as int + 32
    ensures forall i :: 0 <= i < |s| ==> !IsUpperAscii(s[i]) ==> r[i] == s[i]
    ensures forall i :: 0 <= i < |r| ==> !IsUpperAscii(r[i])
  {
    seq(|s|, i requires 0 <= i < |s| => LowerChar(s[i]))
  }

  /** toUpperCase(), ASCII letters only: 'a'..'z' become 'A'..'Z', everything else is kept. */
  function ToUpperCase(s: string): (r: string)
    ensures |r| == |s|
    ensures forall i :: 0 <= i < |s| ==> 'a' <= s[i] <= 'z' ==> r[i] as int == s[i] as int - 32
    ensures forall i :: 0 <= i < |s| ==> !('a' <= s[i] <= 'z') ==> r[i] == s[i]
    ensures forall i :: 0 <= i < |r| ==> !('a' <= r[i] <= 'z')
  {
    seq(|s|, i requires 0 <= i < |s| => UpperChar(s[i]))
  }

  /** Upper-casing first changes nothing that lower-casing sees: the two mappings agree up to case. */
  lemma {:induction false} LowerOfUpper(s: string)
    ensures ToLowerCase(ToUpperCase(s)) == ToLowerCase(s)
  {
    var u := ToUpperCase(s);
    forall i | 0 <= i < |s| ensures ToLowerCase(u)[i] == ToLowerCase(s)[i] {
      if 'a' <= s[i] <= 'z' {
        assert IsUpperAscii(u[i]);
      }
    }
  }

  /** Lower-casing distributes over concatenation. */
  lemma ToLowerCaseAppend(a: string, b: string)
    ensures ToLowerCase(a + b) == ToLowerCase(a) + ToLowerCase(b)
  {
    assert forall i :: 0 <= i < |a| ==> (a + b)[i] == a[i];
    assert forall i :: |a| <= i < |a + b| ==> (a + b)[i] == b[i - |a|];
  }

  // ---------------------------------------------------------------- slashes and hosts

  /** No two adjacent '/'. */
  predicate NoDoubleSlash(s: string)
    decreases |s|
  {
    |s| < 2 || (!(s[0] == '/' && s[1] == '/') && NoDoubleSlash(s[1..]))
  }

  /** NoDoubleSlash read at a position: the character after a '/' is never '/'. */
  lemma {:induction false} NoDoubleSlashAt(s: string, i: nat)
    requires NoDoubleSlash(s) && i + 1 < |s|
    ensures !(s[i] == '/' && s[i + 1] == '/')
    decreases i
  {
    if i > 0 {
      NoDoubleSlashAt(s[1..], i - 1);
    }
  }

  /** replaceAll("/{2,}", "/"): every run of two or more '/' becomes a single '/'. */
  function CollapseSlashes(s: string): (r: string)
    ensures |r| <= |s|
    ensures s != [] ==> r != [] && r[0] == s[0] && r[|r| - 1] == s[|s| - 1]
    decreases |s|
  {
    if |s| < 2 then s
    else if s[0] == '/' && s[1] == '/' then CollapseSlashes(s[1..])
    else [s[0]] + CollapseSlashes(s[1..])
  }

  /** The collapsed text has no "//" left. */
  lemma {:induction false} CollapseSlashesNoDouble(s: string)
    ensures NoDoubleSlash(CollapseSlashes(s))
    decreases |s|
  {
    if |s| >= 2 {
      CollapseSlashesNoDouble(s[1..]);
      if !(s[0] == '/' && s[1] == '/') {
        var rest := CollapseSlashes(s[1..]);
        var r := [s[0]] + rest;
        assert r[1..] == rest;
      }
    }
  }

  /** The text with every '/' removed. */
  function WithoutSlashes(s: string): string {
    if s == [] then [] else (if s[0] == '/' then [] else [s[0]]) + WithoutSlashes(s[1..])
  }

  /**
   * Collapsing only drops '/' characters: every character left was in the
   * text, and removing every '/' from the text before or after collapsing
   * gives the same text.
   */
  lemma {:induction false} CollapseSlashesChars(s: string)
    ensures forall c :: c in CollapseSlashes(s) ==> c in s
    ensures WithoutSlashes(CollapseSlashes(s)) == WithoutSlashes(s)
    decreases |s|
  {
    if |s| >= 2 {
      CollapseSlashesChars(s[1..]);
      if !(s[0] == '/' && s[1] == '/') {
        var r := [s[0]] + CollapseSlashes(s[1..]);
        assert r[1..] == CollapseSlashes(s[1..]);
      }
    }
  }

  /**
   * Collapsing read left to right: a '/' that follows a '/' adds nothing,
   * and every other character is kept.  With CollapseSlashes([]) == [] this
   * determines the collapse of every text.
   */
  lemma {:induction false} CollapseSlashesAppend(s: string, c: char)
    ensures CollapseSlashes(s + [c]) ==
      if c == '/' && s != [] && s[|s| - 1] == '/' then CollapseSlashes(s) else CollapseSlashes(s) + [c]
    decreases |s|
  {
    var t := s + [c];
    if |s| == 1 {
      assert t[1..] == [c];
    } else if |s| >= 2 {
      assert t[0] == s[0] && t[1] == s[1];
      assert t[1..] == s[1..] + [c];
      CollapseSlashesAppend(s[1..], c);
    }
  }

  /** Text without "//" is left as it is. */
  lemma {:induction false} CollapseSlashesKeeps(s: string)
    requires NoDoubleSlash(s)
    ensures CollapseSlashes(s) == s
    decreases |s|
  {
    if |s| >= 2 {
      CollapseSlashesKeeps(s[1..]);
      assert [s[0]] + s[1..] == s;
    }
  }

  /** Both halves of what the collapse promises. */
  lemma CollapseSlashesSpec(s: string)
    ensures NoDoubleSlash(CollapseSlashes(s))
    ensures NoDoubleSlash(s) ==> CollapseSlashes(s) == s
  {
    CollapseSlashesNoDouble(s);
    if NoDoubleSlash(s) {
      CollapseSlashesKeeps(s);
    }
  }

  /** A prefix of text without "//" has none. */
  lemma {:induction false} NoDoubleSlashPrefix(s: string, n: nat)
    requires NoDoubleSlash(s) && n <= |s|
    ensures NoDoubleSlash(s[..n])
    decreases n
  {
    if n >= 2 {
      NoDoubleSlashPrefix(s[1..], n - 1);
      assert s[..n][1..] == s[1..][..n - 1];
    }
  }

  /** Joining two texts without "//" makes none unless the seam is "//". */
  lemma {:induction false} NoDoubleSlashJoin(x: string, y: string)
    requires NoDoubleSlash(x) && NoDoubleSlash(y)
    requires x == [] || y == [] || x[|x| - 1] != '/' || y[0] != '/'
    ensures NoDoubleSlash(x + y)
    decreases |x|
  {
    if x == [] {
      assert x + y == y;
    } else if |x| == 1 {
      assert (x + y)[1..] == y;
    } else {
      NoDoubleSlashJoin(x[1..], y);
      assert (x + y)[1..] == x[1..] + y;
    }
  }

  /** Length of a match of `https?://[^/]+` that starts at the head of `s`, if there is one. */
  function HostPrefixLength(s: string): (n: Option<nat>)
    ensures n.Some? ==> 8 <= n.value <= |s|
    ensures n.Some? ==> StartsWith(s, "http://") || StartsWith(s, "https://")
    ensures n.Some? ==> n.value == |s| || s[n.value] == '/'
  {
    var scheme := if StartsWith(s, "https://") then 8 else if StartsWith(s, "http://") then 7 else 0;
    if scheme == 0 || scheme == |s| || s[scheme] == '/' then None
    else Some(IndexFrom(s, '/', scheme))
  }

  /**
   * A scheme followed by a non-empty host without '/' is a match at the head
   * of `s`; it ends at the next '/', so exactly at the end of the host when
   * a '/' (or the end of the text) follows it.
   */
  lemma HostMatchFound(s: string, scheme: string, h: string)
    requires scheme == "http://" || scheme == "https://"
    requires h != [] && '/' !in h && StartsWith(s, scheme + h)
    ensures HostPrefixLength(s).Some? && HostPrefixLength(s).value >= |scheme| + |h|
    ensures |s| == |scheme| + |h| || s[|scheme| + |h|] == '/' ==> HostPrefixLength(s) == Some(|scheme| + |h|)
  {
    var sch := |scheme|;
    assert s[..sch] == (scheme + h)[..sch] == scheme;
    assert StartsWith(s, "https://") <==> scheme == "https://" by {
      if scheme == "http://" { assert s[4] == (scheme + h)[4] == ':'; }
    }
    assert forall j :: sch <= j < sch + |h| ==> s[j] == (scheme + h)[j] == h[j - sch];
    assert s[sch] == h[0];
  }

  /**
   * A match of `https?://[^/]+` starts at the head of `s` exactly when `s` is
   * a scheme followed by at least one character other than '/'; the match
   * then covers the scheme and every character up to the next '/'.
   */
  lemma HostPrefixLengthSpec(s: string)
    ensures HostPrefixLength(s).None? <==>
      forall h :: h != [] && '/' !in h ==> !StartsWith(s, "http://" + h) && !StartsWith(s, "https://" + h)
    ensures HostPrefixLength(s).Some? ==>
      var n := HostPrefixLength(s).value;
      || (StartsWith(s, "https://") && '/' !in s[8..n])
      || (!StartsWith(s, "https://") && StartsWith(s, "http://") && '/' !in s[7..n])
  {
    forall h | h != [] && '/' !in h && (StartsWith(s, "http://" + h) || StartsWith(s, "https://" + h))
      ensures HostPrefixLength(s).Some?
    {
      if StartsWith(s, "http://" + h) {
        HostMatchFound(s, "http://", h);
      } else {
        HostMatchFound(s, "https://", h);
      }
    }
    var n := HostPrefixLength(s);
    if n.Some? {
      var sch := if StartsWith(s, "https://") then 8 else 7;
      var h := s[sch..n.value];
      assert '/' !in h by {
        forall c | c in h ensures c != '/' {
          var i :| 0 <= i < |h| && h[i] == c;
          assert s[sch + i] == c;
        }
      }
      if sch == 8 {
        assert s[..8 + |h|] == "https://" + h;
      } else {
        assert s[..7 + |h|] == "http://" + h;
      }
    }
  }

  /** replaceAll("https?://[^/]+", ""): deletes every scheme-and-host segment, scanning left to right. */
  function StripHosts(s: string): (r: string)
    ensures |r| <= |s|
    decreases |s|
  {
    if s == [] then []
    else match HostPrefixLength(s)
      case Some(n) => StripHosts(s[n..])
      case None => [s[0]] + StripHosts(s[1..])
  }

  /** Stripping hosts only drops characters: every character left was in the text. */
  lemma {:induction false} StripHostsChars(s: string)
    ensures forall c :: c in StripHosts(s) ==> c in s
    decreases |s|
  {
    if s != [] {
      match HostPrefixLength(s)
      case Some(n) => StripHostsChars(s[n..]);
      case None => StripHostsChars(s[1..]);
    }
  }

  /** No match of `https?://[^/]+` starts before position n of s. */
  predicate NoHostBefore(s: string, n: nat)
    requires n <= |s|
  {
    forall k :: 0 <= k < n ==> HostPrefixLength(s[k..]).None?
  }

  /** A scheme and a host at the head of the text are deleted; stripping carries on in the rooted rest. */
  lemma StripHostsDeletesHead(scheme: string, h: string, p: string)
    requires scheme == "http://" || scheme == "https://"
    requires h != [] && '/' !in h && (p == [] || p[0] == '/')
    ensures StripHosts(scheme + h + p) == StripHosts(p)
  {
    var t := scheme + h + p;
    assert t[..|scheme + h|] == scheme + h;
    assert t[|scheme + h|..] == p;
    HostMatchFound(t, scheme, h);
  }

  /** Text before the first match start is kept as it is, and stripping carries on after it. */
  lemma {:induction false} StripHostsPrefix(x: string, t: string)
    requires NoHostBefore(x + t, |x|)
    ensures StripHosts(x + t) == x + StripHosts(t)
    decreases |x|
  {
    if x == [] {
      assert x + t == t;
    } else {
      var u := x + t;
      SplitHead(x, t);
      SplitHead(x, StripHosts(t));
      assert NoHostBefore(x[1..] + t, |x| - 1) by {
        forall k | 0 <= k < |x| - 1
          ensures HostPrefixLength((x[1..] + t)[k..]).None?
        {
          assert (x[1..] + t)[k..] == u[k + 1..];
        }
      }
      StripHostsPrefix(x[1..], t);
      assert HostPrefixLength(u[0..]).None?;
      assert StripHosts(u) == [u[0]] + StripHosts(u[1..]);
    }
  }

  /**
   * Host deletion: when no match starts inside `x`, a scheme, a host `h` and
   * a rooted rest `p` lose the scheme and the host, and stripping carries on
   * in `p`.
   */
  lemma StripHostsDeletes(x: string, scheme: string, h: string, p: string)
    requires scheme == "http://" || scheme == "https://"
    requires h != [] && '/' !in h && (p == [] || p[0] == '/')
    requires NoHostBefore(x + scheme + h + p, |x|)
    ensures StripHosts(x + scheme + h + p) == x + StripHosts(p)
  {
    var t := scheme + h + p;
    assert x + scheme + h + p == x + t;
    StripHostsPrefix(x, t);
    StripHostsDeletesHead(scheme, h, p);
  }

  /** Taking the head off a concatenation with a non-empty left part. */
  lemma SplitHead(a: string, b: string)
    requires a != []
    ensures (a + b)[0] == a[0] && (a + b)[1..] == a[1..] + b && [a[0]] + (a[1..] + b) == a + b
    ensures (a + b)[0..] == a + b
  {
  }

  /** No scheme-and-host segment starts anywhere in the text. */
  predicate HostFree(s: string)
    decreases |s|
  {
    s == [] || (HostPrefixLength(s).None? && HostFree(s[1..]))
  }

  /** Text without a ':' holds no scheme, so no scheme-and-host segment starts in it. */
  lemma {:induction false} NoColonHostFree(s: string)
    requires ':' !in s
    ensures HostFree(s)
    decreases |s|
  {
    if s != [] {
      if |s| >= 7 {
        assert s[4] in s && s[5] in s;
      }
      NoColonHostFree(s[1..]);
    }
  }

  /** Text without '/' has no "//". */
  lemma {:induction false} NoSlashNoDouble(s: string)
    requires '/' !in s
    ensures NoDoubleSlash(s)
    decreases |s|
  {
    if |s| >= 2 {
      assert s[0] in s;
      NoSlashNoDouble(s[1..]);
    }
  }

  /** Text with no scheme-and-host segment is left as it is. */
  lemma {:induction false} StripHostsKeeps(s: string)
    requires HostFree(s)
    ensures StripHosts(s) == s
    decreases |s|
  {
    if s != [] {
      StripHostsKeeps(s[1..]);
      assert [s[0]] + s[1..] == s;
    }
  }

  // ---------------------------------------------------------------- line splitting

  /** A character that `\R` matches on its own (`\r\n` is matched as one break). */
  predicate IsLineBreak(c: char) {
    c == '\n' || c == '\U{B}' || c == '\U{C}' || c == '\r' || c == '\U{85}' || c == '\U{2028}' || c == '\U{2029}'
  }

  predicate NoLineBreak(s: string) {
    forall i :: 0 <= i < |s| ==> !IsLineBreak(s[i])
  }

  /** Index of the first line-break character at or after `from`, or |s|. */
  function BreakFrom(s: string, from: nat): (k: nat)
    requires from <= |s|
    ensures from <= k <= |s|
    ensures k < |s| ==> IsLineBreak(s[k])
    ensures forall j :: from <= j < k ==> !IsLineBreak(s[j])
    decreases |s| - from
  {
    if from == |s| || IsLineBreak(s[from]) then from else BreakFrom(s, from + 1)
  }

  /** Width of the break at k: `\R` takes "\r\n" as one break. */
  function BreakWidth(s: string, k: nat): (w: nat)
    requires k < |s|
    ensures 1 <= w <= 2 && k + w <= |s|
  {
    if s[k] == '\r' && k + 1 < |s| && s[k + 1] == '\n' then 2 else 1
  }

  /** The pieces between matches of `\R`, trailing empty pieces included. */
  function SplitOnBreaks(s: string): (pieces: seq<string>)
    ensures |pieces| >= 1
    decreases |s|
  {
    var k := BreakFrom(s, 0);
    if k == |s| then [s] else [s[..k]] + SplitOnBreaks(s[k + BreakWidth(s, k)..])
  }

  lemma {:induction false} SplitOnBreaksSpec(s: string)
    ensures forall i :: 0 <= i < |SplitOnBreaks(s)| ==> NoLineBreak(SplitOnBreaks(s)[i])
    decreases |s|
  {
    var k := BreakFrom(s, 0);
    if k < |s| {
      SplitOnBreaksSpec(s[k + BreakWidth(s, k)..]);
    }
  }

  /** One match of `\R`: the pair "\r\n", or a single line-break character. */
  predicate IsBreak(sep: string) {
    sep == "\r\n" || (|sep| == 1 && IsLineBreak(sep[0]))
  }

  /** The pieces with the separators put back between them. */
  function Joined(pieces: seq<string>, seps: seq<string>): string
    requires |seps| + 1 == |pieces|
    decreases |seps|
  {
    if seps == [] then pieces[0] else pieces[0] + seps[0] + Joined(pieces[1..], seps[1..])
  }

  /** The matches of `\R` that SplitOnBreaks cuts at, in order. */
  function Separators(s: string): seq<string>
    decreases |s|
  {
    var k := BreakFrom(s, 0);
    if k == |s| then [] else [s[k..k + BreakWidth(s, k)]] + Separators(s[k + BreakWidth(s, k)..])
  }

  /** Splitting round-trips: the pieces, joined with the breaks matched between them, rebuild the text. */
  lemma {:induction false} SplitOnBreaksJoin(s: string)
    ensures |Separators(s)| + 1 == |SplitOnBreaks(s)|
    ensures Joined(SplitOnBreaks(s), Separators(s)) == s
    decreases |s|
  {
    var k := BreakFrom(s, 0);
    if k < |s| {
      var width := BreakWidth(s, k);
      var rest := s[k + width..];
      SplitOnBreaksJoin(rest);
      var pieces, seps := SplitOnBreaks(s), Separators(s);
      assert pieces[1..] == SplitOnBreaks(rest) && seps[1..] == Separators(rest);
      calc {
        Joined(pieces, seps);
        pieces[0] + seps[0] + Joined(pieces[1..], seps[1..]);
        s[..k] + s[k..k + width] + rest;
        { SliceJoin3(s, k, k + width); }
        s;
      }
    }
  }

  /** Every separator is one match of `\R`. */
  lemma {:induction false} SeparatorsAreBreaks(s: string)
    ensures forall i :: 0 <= i < |Separators(s)| ==> IsBreak(Separators(s)[i])
    decreases |s|
  {
    var k := BreakFrom(s, 0);
    if k < |s| {
      var sep := s[k..k + BreakWidth(s, k)];
      var rest := s[k + BreakWidth(s, k)..];
      assert Separators(s) == [sep] + Separators(rest);
      SeparatorsAreBreaks(rest);
      forall i | 0 <= i < |Separators(s)| ensures IsBreak(Separators(s)[i]) {
        if i == 0 {
          BreakSlice(s, k);
        } else {
          assert Separators(s)[i] == Separators(rest)[i - 1];
        }
      }
    }
  }

  /**
   * The match is greedy: a "\r" is cut alone only when no "\n" follows it,
   * neither at the head of the next piece (pieces hold no break) nor, when
   * that piece is empty, at the head of the next separator.
   */
  lemma {:induction false} SeparatorsGreedy(s: string)
    ensures forall i ::
      (0 <= i < |Separators(s)| - 1 && i + 1 < |SplitOnBreaks(s)| && Separators(s)[i] == "\r" && SplitOnBreaks(s)[i + 1] == [])
      ==> !StartsWith(Separators(s)[i + 1], "\n")
    decreases |s|
  {
    var k := BreakFrom(s, 0);
    if k < |s| {
      var width := BreakWidth(s, k);
      var rest := s[k + width..];
      SeparatorsGreedy(rest);
      var pieces, seps := SplitOnBreaks(s), Separators(s);
      assert pieces[1..] == SplitOnBreaks(rest) && seps[1..] == Separators(rest);
      if |seps| > 1 && seps[0] == "\r" && pieces[1] == [] {
        BreakSlice(s, k);
        assert seps[1][0] == rest[0] == s[k + 1];
      }
    }
  }

  /** The break at k, as a separator. */
  lemma BreakSlice(s: string, k: nat)
    requires k < |s| && IsLineBreak(s[k])
    ensures IsBreak(s[k..k + BreakWidth(s, k)])
    ensures s[k..k + BreakWidth(s, k)] == "\r" ==> k + 1 == |s| || s[k + 1] != '\n'
  {
    if BreakWidth(s, k) == 2 {
      assert s[k..k + 2] == "\r\n";
    }
  }

  lemma SliceJoin3(s: string, a: nat, b: nat)
    requires a <= b <= |s|
    ensures s[..a] + s[a..b] + s[b..] == s
  {
  }

  /** Removes the empty pieces at the end of the list, as String.split does. */
  function DropTrailingEmpty(pieces: seq<string>): (r: seq<string>)
    ensures |r| <= |pieces|
    ensures r == [] || r[|r| - 1] != []
  {
    if pieces != [] && pieces[|pieces| - 1] == [] then DropTrailingEmpty(pieces[..|pieces| - 1]) else pieces
  }

  lemma {:induction false} DropTrailingEmptySpec(pieces: seq<string>)
    ensures DropTrailingEmpty(pieces) == pieces[..|DropTrailingEmpty(pieces)|]
    ensures forall i :: |DropTrailingEmpty(pieces)| <= i < |pieces| ==> pieces[i] == []
  {
    if pieces != [] && pieces[|pieces| - 1] == [] {
      var init := pieces[..|pieces| - 1];
      DropTrailingEmptySpec(init);
      assert init[..|DropTrailingEmpty(init)|] == pieces[..|DropTrailingEmpty(init)|];
    } else {
      assert pieces[..|pieces|] == pieces;
    }
  }

  /**
   * String.split("\\R"): a string without any line break is its own single
   * line (the empty string too); otherwise the pieces between breaks, with
   * trailing empty pieces removed (so "\n" splits into no lines at all).
   */
  function SplitLines(s: string): seq<string> {
    if BreakFrom(s, 0) == |s| then [s] else DropTrailingEmpty(SplitOnBreaks(s))
  }

  /**
   * No line holds a break; unbroken text is its own single line; otherwise
   * the lines are the pieces between breaks up to the last non-empty one,
   * and only empty pieces are dropped.
   */
  lemma SplitLinesSpec(s: string)
    ensures forall i :: 0 <= i < |SplitLines(s)| ==> NoLineBreak(SplitLines(s)[i])
    ensures NoLineBreak(s) ==> SplitLines(s) == [s]
    ensures !NoLineBreak(s) ==> SplitLines(s) == [] || SplitLines(s)[|SplitLines(s)| - 1] != []
    ensures !NoLineBreak(s) ==>
      && |SplitLines(s)| <= |SplitOnBreaks(s)|
      && SplitLines(s) == SplitOnBreaks(s)[..|SplitLines(s)|]
      && forall i :: |SplitLines(s)| <= i < |SplitOnBreaks(s)| ==> SplitOnBreaks(s)[i] == []
  {
    if BreakFrom(s, 0) < |s| {
      var pieces := SplitOnBreaks(s);
      SplitOnBreaksSpec(s);
      DropTrailingEmptySpec(pieces);
      var lines := DropTrailingEmpty(pieces);
      forall i | 0 <= i < |lines| ensures NoLineBreak(lines[i]) {
        assert lines[i] == pieces[i];
      }
    }
  }

  // ---------------------------------------------------------------- Matcher.find

  /** What an anchored matcher reports when it is tried at position k of s. */
  function ValueAt<T>(s: string, at: string -> Option<T>, k: nat): Option<T>
    requires k <= |s|
  {
    at(s[k..])
  }

  /**
   * The value of the first position at which an anchored matcher succeeds:
   * how Matcher.find() reports the leftmost match of a pattern.
   */
  function Leftmost<T>(s: string, at: string -> Option<T>): Option<T>
    decreases |s|
  {
    match at(s)
    case Some(v) => Some(v)
    case None => if s == [] then None else Leftmost(s[1..], at)
  }

  /** Leftmost finds nothing exactly when no position matches, and otherwise the value of the first position that does. */
  lemma {:induction false} LeftmostSpec<T>(s: string, at: string -> Option<T>)
    ensures Leftmost(s, at).None? <==> forall k :: 0 <= k <= |s| ==> ValueAt(s, at, k).None?
    ensures Leftmost(s, at).Some? ==>
      exists k :: 0 <= k <= |s| && ValueAt(s, at, k) == Leftmost(s, at) && forall j :: 0 <= j < k ==> ValueAt(s, at, j).None?
    decreases |s|
  {
    assert s[0..] == s;
    var r := Leftmost(s, at);
    if at(s).Some? {
      assert ValueAt(s, at, 0) == r;
    } else if s != [] {
      assert ValueAt(s, at, 0).None?;
      LeftmostSpec(s[1..], at);
      assert r == Leftmost(s[1..], at);
      assert forall k :: 1 <= k <= |s| ==> ValueAt(s, at, k) == ValueAt(s[1..], at, k - 1) by {
        forall k | 1 <= k <= |s| ensures ValueAt(s, at, k) == ValueAt(s[1..], at, k - 1) {
          assert s[1..][k - 1..] == s[k..];
        }
      }
      assert r.None? ==> forall k :: 0 <= k <= |s| ==> ValueAt(s, at, k).None? by {
        if r.None? {
          forall k | 0 <= k <= |s| ensures ValueAt(s, at, k).None? {
            if k > 0 { assert ValueAt(s[1..], at, k - 1).None?; }
          }
        }
      }
      assert (forall k :: 0 <= k <= |s| ==> ValueAt(s, at, k).None?) ==> r.None? by {
        if forall k :: 0 <= k <= |s| ==> ValueAt(s, at, k).None? {
          forall k | 0 <= k <= |s[1..]| ensures ValueAt(s[1..], at, k).None? {
            assert ValueAt(s, at, k + 1).None?;
          }
        }
      }
      if r.Some? {
        var k :| 0 <= k <= |s[1..]| && ValueAt(s[1..], at, k) == r && forall j :: 0 <= j < k ==> ValueAt(s[1..], at, j).None?;
        assert ValueAt(s, at, k + 1) == r;
        forall j | 0 <= j < k + 1 ensures ValueAt(s, at, j).None? {
          if j > 0 { assert ValueAt(s[1..], at, j - 1).None?; }
        }
      }
    }
  }

  /** `"([^"]+)"` anchored at the head of `s`: a non-empty run of non-quote characters between quotes. */
  function QuotedAt(s: string): (r: Option<string>)
    ensures r.Some? ==> r.value != [] && '"' !in r.value
  {
    if s == [] || s[0] != '"' then None
    else
      var close := IndexFrom(s, '"', 1);
      if close == |s| || close == 1 then None else Some(s[1..close])
  }

  /** A quote, a non-empty run of non-quote characters and a quote at the head of `s` are matched. */
  lemma QuotedAtFound(s: string, v: string)
    requires v != [] && '"' !in v && StartsWith(s, "\"" + v + "\"")
    ensures QuotedAt(s) == Some(v)
  {
    var q := "\"" + v + "\"";
    assert s[0] == q[0];
    forall j | 1 <= j < 1 + |v| ensures s[j] != '"' {
      assert s[j] == q[j] == v[j - 1];
    }
    assert s[1 + |v|] == q[1 + |v|];
    IndexFromIs(s, '"', 1, 1 + |v|);
    assert s[1..1 + |v|] == q[1..1 + |v|] == v;
  }

  /**
   * `"([^"]+)"` at the head of `s` matches exactly a quote, a non-empty run
   * of non-quote characters and a quote, and reports the run.
   */
  lemma QuotedAtSpec(s: string)
    ensures QuotedAt(s).Some? ==> StartsWith(s, "\"" + QuotedAt(s).value + "\"")
    ensures forall v :: v != [] && '"' !in v && StartsWith(s, "\"" + v + "\"") ==> QuotedAt(s) == Some(v)
  {
    if QuotedAt(s).Some? {
      var close := IndexFrom(s, '"', 1);
      assert s[..close + 1] == "\"" + s[1..close] + "\"";
    }
    forall v | v != [] && '"' !in v && StartsWith(s, "\"" + v + "\"") ensures QuotedAt(s) == Some(v) {
      QuotedAtFound(s, v);
    }
  }

  /** The text of the first `"…"` literal with at least one character in it. */
  function FirstQuoted(s: string): (r: Option<string>)
    ensures r.Some? ==> r.value != [] && '"' !in r.value
  {
    LeftmostSpec(s, QuotedAt);
    Leftmost(s, QuotedAt)
  }
}
