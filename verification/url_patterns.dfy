/** The anchored URL shape every platform recogniser uses,
    `^(https?://)?(www\.)?(host1|host2|...)/.+$`, matched with `re.match`.
    With `ignoreCase` (re.IGNORECASE) the URL is compared after ASCII
    lower-casing; every host literal is lower case. `.+$` needs at least one
    character, no newline, and lets `$` stand before one final newline. */
module UrlPatterns {
  import opened Text

  /** `.+$` as the tail of a pattern. */
  predicate RestOfLine(r: string) {
    && |r| >= 1
    && ('\n' !in r || (|r| >= 2 && r[|r| - 1] == '\n' && '\n' !in r[..|r| - 1]))
  }

  /** The URL (already case-normalised) starts with `head` and the rest of
      the line is non-empty. */
  predicate MatchesWithHead(u: string, head: string) {
    StartsWith(u, head) && RestOfLine(u[|head|..])
  }

  /** The alternation `(host1|host2|...)` after a fixed prefix. */
  predicate MatchAnyHost(u: string, prefix: string, hosts: seq<string>)
    decreases |hosts|
  {
    |hosts| > 0 && (MatchesWithHead(u, prefix + hosts[0] + "/") || MatchAnyHost(u, prefix, hosts[1..]))
  }

  lemma {:induction false} MatchAnyHostWitness(u: string, prefix: string, hosts: seq<string>)
    requires MatchAnyHost(u, prefix, hosts)
    ensures exists k :: 0 <= k < |hosts| && MatchesWithHead(u, prefix + hosts[k] + "/")
    decreases |hosts|
  {
    if !MatchesWithHead(u, prefix + hosts[0] + "/") {
      MatchAnyHostWitness(u, prefix, hosts[1..]);
      var k :| 0 <= k < |hosts[1..]| && MatchesWithHead(u, prefix + hosts[1..][k] + "/");
      assert hosts[1..][k] == hosts[k + 1];
    }
  }

  lemma {:induction false} MatchAnyHostIntro(u: string, prefix: string, hosts: seq<string>, k: nat)
    requires k < |hosts| && MatchesWithHead(u, prefix + hosts[k] + "/")
    ensures MatchAnyHost(u, prefix, hosts)
    decreases k
  {
    if k > 0 {
      assert hosts[1..][k - 1] == hosts[k];
      MatchAnyHostIntro(u, prefix, hosts[1..], k - 1);
    }
  }

  /** The six ways the optional scheme and `www.` groups can be taken. */
  const Prefixes: seq<string> :=
    ["", "www.", "http://", "http://www.", "https://", "https://www."]

  predicate AnyPrefixMatch(u: string, hosts: seq<string>) {
    || MatchAnyHost(u, "", hosts)
    || MatchAnyHost(u, "www.", hosts)
    || MatchAnyHost(u, "http://", hosts)
    || MatchAnyHost(u, "http://www.", hosts)
    || MatchAnyHost(u, "https://", hosts)
    || MatchAnyHost(u, "https://www.", hosts)
  }

  /** `re.match(r"^(https?://)?(www\.)?(hosts...)/.+$", url[, re.IGNORECASE])`. */
  predicate AnchoredHostMatch(hosts: seq<string>, ignoreCase: bool, url: string) {
    AnyPrefixMatch(if ignoreCase then Lower(url) else url, hosts)
  }

  lemma LowerKeepsRestOfLine(r: string)
    requires RestOfLine(r)
    ensures RestOfLine(Lower(r))
  {
    assert forall i :: 0 <= i < |r| ==> (Lower(r)[i] == '\n' <==> r[i] == '\n');
    if |r| >= 2 && r[|r| - 1] == '\n' {
      assert Lower(r)[..|r| - 1] == Lower(r[..|r| - 1]);
    }
  }

  /** A URL made of one of the six prefixes, a listed host, `/` and a
      non-empty rest of line is accepted. With `ignoreCase`, the head
      only has to lower-case to that form. */
  lemma AcceptsListedHost(hosts: seq<string>, ignoreCase: bool, url: string, head: string, rest: string, p: nat, k: nat)
    requires p < |Prefixes| && k < |hosts|
    requires url == head + rest && RestOfLine(rest)
    requires if ignoreCase then Lower(head) == Prefixes[p] + hosts[k] + "/" else head == Prefixes[p] + hosts[k] + "/"
    ensures AnchoredHostMatch(hosts, ignoreCase, url)
  {
    var u := if ignoreCase then Lower(url) else url;
    var h := Prefixes[p] + hosts[k] + "/";
    if ignoreCase {
      LowerConcat(head, rest);
      LowerKeepsRestOfLine(rest);
      assert u == h + Lower(rest);
    }
    assert u[..|h|] == h;
    assert MatchesWithHead(u, h);
    MatchAnyHostIntro(u, Prefixes[p], hosts, k);
  }

  /** Whichever of the six prefixes matched, it is one of `Prefixes`. */
  lemma AnyPrefixWitness(u: string, hosts: seq<string>)
    requires AnyPrefixMatch(u, hosts)
    ensures exists p :: 0 <= p < |Prefixes| && MatchAnyHost(u, Prefixes[p], hosts)
  {
    if MatchAnyHost(u, "", hosts) {
      assert Prefixes[0] == "";
    } else if MatchAnyHost(u, "www.", hosts) {
      assert Prefixes[1] == "www.";
    } else if MatchAnyHost(u, "http://", hosts) {
      assert Prefixes[2] == "http://";
    } else if MatchAnyHost(u, "http://www.", hosts) {
      assert Prefixes[3] == "http://www.";
    } else if MatchAnyHost(u, "https://", hosts) {
      assert Prefixes[4] == "https://";
    } else {
      assert Prefixes[5] == "https://www.";
    }
  }

  /** The head and rest of an accepted URL: which prefix and host matched. */
  lemma MatchedHead(hosts: seq<string>, ignoreCase: bool, url: string) returns (p: nat, k: nat)
    requires AnchoredHostMatch(hosts, ignoreCase, url)
    ensures p < |Prefixes| && k < |hosts|
    ensures MatchesWithHead(if ignoreCase then Lower(url) else url, Prefixes[p] + hosts[k] + "/")
  {
    var u := if ignoreCase then Lower(url) else url;
    AnyPrefixWitness(u, hosts);
    p :| 0 <= p < |Prefixes| && MatchAnyHost(u, Prefixes[p], hosts);
    MatchAnyHostWitness(u, Prefixes[p], hosts);
    k :| 0 <= k < |hosts| && MatchesWithHead(u, Prefixes[p] + hosts[k] + "/");
  }

  /** With lower-case hosts, a URL the case-sensitive pattern accepts is
      accepted by the case-insensitive one too. */
  lemma CaseSensitiveMatchIsInsensitive(hosts: seq<string>, url: string)
    requires forall k :: 0 <= k < |hosts| ==> IsLowerStable(hosts[k])
    requires AnchoredHostMatch(hosts, false, url)
    ensures AnchoredHostMatch(hosts, true, url)
  {
    var p, k := MatchedHead(hosts, false, url);
    var head := Prefixes[p] + hosts[k] + "/";
    assert IsLowerStable(Prefixes[p]);
    LowerStableConcat(Prefixes[p], hosts[k]);
    LowerStableConcat(Prefixes[p] + hosts[k], "/");
    LowerOfStable(head);
    assert url == head + url[|head|..];
    AcceptsListedHost(hosts, true, url, head, url[|head|..], p, k);
  }

  /** The case-sensitive pattern only accepts URLs containing a character
      that every host contains. */
  lemma MatchNeedsHostChar(hosts: seq<string>, url: string, c: char)
    requires forall k :: 0 <= k < |hosts| ==> c in hosts[k]
    ensures AnchoredHostMatch(hosts, false, url) ==> c in url
  {
    if AnchoredHostMatch(hosts, false, url) {
      var p, k := MatchedHead(hosts, false, url);
      var head := Prefixes[p] + hosts[k] + "/";
      var i :| 0 <= i < |hosts[k]| && hosts[k][i] == c;
      assert head[|Prefixes[p]| + i] == c;
      assert url[..|head|][|Prefixes[p]| + i] == c;
    }
  }

  predicate NoSlashOrColon(h: string) {
    '/' !in h && ':' !in h
  }

  function SlashCount(s: string): nat {
    if |s| == 0 then 0 else SlashCount(s[..|s| - 1]) + (if s[|s| - 1] == '/' then 1 else 0)
  }

  lemma {:induction false} SlashCountConcat(a: string, b: string)
    ensures SlashCount(a + b) == SlashCount(a) + SlashCount(b)
    decreases |b|
  {
    if |b| == 0 {
      assert a + b == a;
    } else {
      assert (a + b)[..|a + b| - 1] == a + b[..|b| - 1];
      assert (a + b)[|a + b| - 1] == b[|b| - 1];
      SlashCountConcat(a, b[..|b| - 1]);
    }
  }

  lemma {:induction false} SlashCountNone(s: string)
    requires '/' !in s
    ensures SlashCount(s) == 0
    decreases |s|
  {
    if |s| > 0 {
      SlashCountNone(s[..|s| - 1]);
    }
  }

  lemma {:induction false} SlashCountMono(s: string, n: nat)
    requires n <= |s|
    ensures SlashCount(s[..n]) <= SlashCount(s)
    decreases |s|
  {
    if n == |s| {
      assert s[..n] == s;
    } else {
      assert s[..|s| - 1][..n] == s[..n];
      SlashCountMono(s[..|s| - 1], n);
    }
  }

  lemma {:induction false} LowerKeepsSlashes(s: string)
    ensures SlashCount(Lower(s)) == SlashCount(s)
    decreases |s|
  {
    if |s| > 0 {
      assert Lower(s)[..|s| - 1] == Lower(s[..|s| - 1]);
      LowerKeepsSlashes(s[..|s| - 1]);
    }
  }

  lemma CountSlashes(prefix: string, h: string)
    requires NoSlashOrColon(h)
    ensures SlashCount(prefix + h + "/") == SlashCount(prefix) + 1
  {
    SlashCountConcat(prefix + h, "/");
    SlashCountConcat(prefix, h);
    SlashCountNone(h);
    assert SlashCount("/") == SlashCount("") + 1;
  }

  lemma PrefixSlashes(q: nat)
    requires q < |Prefixes|
    ensures SlashCount(Prefixes[q]) == (if q < 2 then 0 else 2)
  {
    var s := Prefixes[q];
    if q == 1 {
      SlashCountNone("www.");
    } else if q >= 2 {
      var w := if q % 2 == 1 then "www." else "";
      var sch := if q < 4 then "http:" else "https:";
      assert s == sch + "//" + w;
      SlashCountConcat(sch + "//", w);
      SlashCountConcat(sch, "//");
      SlashCountNone(w);
      SlashCountNone(sch);
      assert SlashCount("//") == 2 by {
        assert "//"[..1] == "/";
        assert SlashCount("/") == 1;
      }
    }
  }

  /** No reading of `Prefixes[p] + h + "/"` through another prefix and host
      leaves a non-empty tail. */
  lemma NoShorterHead(url: string, u: string, p: nat, q: nat, h: string, h2: string)
    requires p < |Prefixes| && q < |Prefixes|
    requires NoSlashOrColon(h) && NoSlashOrColon(h2)
    requires url == Prefixes[p] + h + "/"
    requires u == Lower(url) || u == url
    ensures !MatchesWithHead(u, Prefixes[q] + h2 + "/")
  {
    var head := Prefixes[q] + h2 + "/";
    if MatchesWithHead(u, head) {
      var n := |head|;
      assert n < |u|;
      assert u[..n] == head;
      assert u[|u| - 1] == '/';
      assert SlashCount(u) == SlashCount(url) by {
        LowerKeepsSlashes(url);
      }
      assert SlashCount(u[..|u| - 1]) + 1 == SlashCount(u);
      SlashCountMono(u[..|u| - 1], n);
      assert u[..|u| - 1][..n] == u[..n];
      CountSlashes(Prefixes[p], h);
      CountSlashes(Prefixes[q], h2);
      PrefixSlashes(p);
      PrefixSlashes(q);
      assert p >= 2 && q < 2;
      SchemeBlocksBareHost(url, u, p, q, h2);
      assert false;
    }
  }

  /** A URL that starts with a scheme cannot be read as starting with `www.`
      or with a bare host: the host would have to contain `:`. */
  lemma SchemeBlocksBareHost(url: string, u: string, p: nat, q: nat, h2: string)
    requires 2 <= p < |Prefixes| && q < 2
    requires NoSlashOrColon(h2)
    requires StartsWith(url, Prefixes[p])
    requires u == Lower(url) || u == url
    ensures !StartsWith(u, Prefixes[q] + h2 + "/")
  {
    var sch := Prefixes[p];
    assert u[0] == 'h' && u[1] == 't' && u[2] == 't' && u[3] == 'p';
    assert u[4] == LowerChar(url[4]) && u[5] == LowerChar(url[5]);
    // Up to the scheme's `:` there is no `/`, and the `:` itself is not one,
    // so a bare host followed by `/` would have to contain that `:`.
    var colon := if sch[4] == ':' then 4 else 5;
    assert u[colon] == ':';
    assert forall i :: 0 <= i < colon ==> u[i] != '/';
  }

  /** A listed host followed by `/` and nothing else never matches: the
      pattern needs at least one character after the slash, and no shorter
      reading of the URL ends in a slash, because the hosts contain neither
      `/` nor `:`. */
  lemma BareHostRejected(hosts: seq<string>, ignoreCase: bool, p: nat, k: nat)
    requires forall j :: 0 <= j < |hosts| ==> NoSlashOrColon(hosts[j])
    requires p < |Prefixes| && k < |hosts|
    ensures !AnchoredHostMatch(hosts, ignoreCase, Prefixes[p] + hosts[k] + "/")
  {
    var url := Prefixes[p] + hosts[k] + "/";
    var u := if ignoreCase then Lower(url) else url;
    forall q | 0 <= q < |Prefixes|
      ensures !MatchAnyHost(u, Prefixes[q], hosts)
    {
      if MatchAnyHost(u, Prefixes[q], hosts) {
        MatchAnyHostWitness(u, Prefixes[q], hosts);
        var j :| 0 <= j < |hosts| && MatchesWithHead(u, Prefixes[q] + hosts[j] + "/");
        NoShorterHead(url, u, p, q, hosts[k], hosts[j]);
      }
    }
    assert !MatchAnyHost(u, Prefixes[0], hosts);
    assert !MatchAnyHost(u, Prefixes[1], hosts);
    assert !MatchAnyHost(u, Prefixes[2], hosts);
    assert !MatchAnyHost(u, Prefixes[3], hosts);
    assert !MatchAnyHost(u, Prefixes[4], hosts);
    assert !MatchAnyHost(u, Prefixes[5], hosts);
  }

  /** A DNS label: ASCII letters, digits and `-`. */
  predicate IsLabel(sub: string) {
    |sub| > 0 && forall i :: 0 <= i < |sub| ==> IsAsciiLetter(sub[i]) || IsDigit(sub[i]) || sub[i] == '-'
  }

  lemma LowerLabel(sub: string)
    requires IsLabel(sub)
    ensures IsLabel(Lower(sub))
  {
  }

  /** Without a scheme or `www.`, a head that fits `label.tail` must have a
      host that begins with `label.`. */
  lemma LabelHead(x: string, lsub: string, tail: string, h: string)
    requires IsLabel(lsub)
    requires x == lsub + "." + tail
    requires NoSlashOrColon(h)
    requires StartsWith(x, h + "/")
    ensures StartsWith(h, lsub + ".")
  {
    var n := |lsub|;
    assert x[n] == '.';
    assert forall i :: 0 <= i < n ==> x[i] == lsub[i];
    assert x[|h|] == '/';
    assert h[..n + 1] == x[..n + 1] == lsub + ".";
  }

  /** A label other than `www` followed by a dot does not begin with `www.`. */
  lemma LabelIsNoWww(x: string, lsub: string, tail: string)
    requires IsLabel(lsub) && lsub != "www"
    requires x == lsub + "." + tail
    ensures !StartsWith(x, "www.")
  {
    var n := |lsub|;
    assert x[n] == '.';
    assert forall i :: 0 <= i < n ==> x[i] == lsub[i];
    assert forall i :: 0 <= i < n ==> lsub[i] != '.';
    if n < 3 {
      assert x[n] != "www."[n];
    } else if n > 3 {
      assert x[3] != "www."[3];
    } else {
      assert x[..3] == lsub;
      assert x[..4][..3] == x[..3];
    }
  }

  /** A label followed by a dot does not begin with a scheme. */
  lemma LabelIsNoScheme(x: string, lsub: string, tail: string, q: nat)
    requires IsLabel(lsub) && x == lsub + "." + tail
    requires 2 <= q < |Prefixes|
    ensures !StartsWith(x, Prefixes[q])
  {
    var n := |lsub|;
    assert x[n] == '.';
    assert forall i :: 0 <= i < n ==> x[i] == lsub[i];
    var colon := if q < 4 then 4 else 5;
    assert Prefixes[q][colon] == ':';
    assert forall i :: 0 <= i < colon ==> Prefixes[q][i] != '.';
  }

  /** Without a scheme, no head fits `label.tail` unless a host begins with
      `label.`. */
  lemma LabelHeadMisses(x: string, lsub: string, tail: string, q: nat, h: string)
    requires IsLabel(lsub) && lsub != "www"
    requires x == lsub + "." + tail
    requires q < 2 && NoSlashOrColon(h) && !StartsWith(h, lsub + ".")
    ensures !StartsWith(x, Prefixes[q] + h + "/")
  {
    if q == 1 {
      LabelIsNoWww(x, lsub, tail);
      assert (Prefixes[q] + h + "/")[..4] == "www.";
    } else if StartsWith(x, h + "/") {
      LabelHead(x, lsub, tail, h);
    }
  }

  /** A URL whose first label after the optional scheme is followed by a dot
      and is not `www` is rejected, unless a listed host itself begins with
      that label and a dot: a subdomain other than `www.` never matches. */
  lemma SubdomainRejected(hosts: seq<string>, sch: string, sub: string, rest: string)
    requires sch == "" || sch == "http://" || sch == "https://"
    requires IsLabel(sub) && Lower(sub) != "www"
    requires forall k :: 0 <= k < |hosts| ==> NoSlashOrColon(hosts[k]) && !StartsWith(hosts[k], Lower(sub) + ".")
    ensures !AnchoredHostMatch(hosts, true, sch + sub + "." + rest)
  {
    var url := sch + sub + "." + rest;
    var lsub := Lower(sub);
    var x := lsub + "." + Lower(rest);
    LowerLabel(sub);
    LowerConcat(sch + sub, "." + rest);
    LowerConcat(sch, sub);
    LowerConcat(".", rest);
    LowerOfStable(sch);
    assert Lower(".") == ".";
    var u := Lower(url);
    assert u == sch + x;
    forall q, j | 0 <= q < |Prefixes| && 0 <= j < |hosts|
      ensures !StartsWith(u, Prefixes[q] + hosts[j] + "/")
    {
      HeadMisses(u, x, sch, lsub, Lower(rest), q, hosts[j]);
    }
    forall q | 0 <= q < |Prefixes|
      ensures !MatchAnyHost(u, Prefixes[q], hosts)
    {
      if MatchAnyHost(u, Prefixes[q], hosts) {
        MatchAnyHostWitness(u, Prefixes[q], hosts);
      }
    }
    assert !MatchAnyHost(u, Prefixes[0], hosts);
    assert !MatchAnyHost(u, Prefixes[1], hosts);
    assert !MatchAnyHost(u, Prefixes[2], hosts);
    assert !MatchAnyHost(u, Prefixes[3], hosts);
    assert !MatchAnyHost(u, Prefixes[4], hosts);
    assert !MatchAnyHost(u, Prefixes[5], hosts);
  }

  lemma HeadMisses(u: string, x: string, sch: string, lsub: string, tail: string, q: nat, h: string)
    requires sch == "" || sch == "http://" || sch == "https://"
    requires IsLabel(lsub) && lsub != "www"
    requires x == lsub + "." + tail && u == sch + x
    requires q < |Prefixes| && NoSlashOrColon(h) && !StartsWith(h, lsub + ".")
    ensures !StartsWith(u, Prefixes[q] + h + "/")
  {
    var head := Prefixes[q] + h + "/";
    if sch == "" {
      assert u == x;
      if q < 2 {
        LabelHeadMisses(x, lsub, tail, q, h);
      } else {
        LabelIsNoScheme(x, lsub, tail, q);
        assert Prefixes[q] == head[..|Prefixes[q]|];
      }
    } else {
      var p0 := if sch == "http://" then 2 else 4;
      assert sch == Prefixes[p0];
      if q < 2 {
        SchemeBlocksBareHost(u, u, p0, q, h);
      } else if q == p0 || q == p0 + 1 {
        var w := Prefixes[q - p0];
        assert Prefixes[q] == sch + w;
        assert head == sch + (w + h + "/");
        LabelHeadMisses(x, lsub, tail, q - p0, h);
        StartsWithCommonPrefix(sch, x, w + h + "/");
      } else {
        assert u[4] == sch[4];
        assert head[4] == Prefixes[q][4];
      }
    }
  }
}
