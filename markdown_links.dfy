/**
 * The two markdown link rewriters. Both replace the visible text of every
 * inline link `[text](url)` by an emoji and keep the url:
 *
 *  - `replaceMarkdownLinkText` uses `/\[([^\]]+)\]\(([^)]+)\)/g` with the
 *    replacement `[emoji]($2)`: the link text must be non-empty and is the
 *    first of two capture groups;
 *  - `transformLinkText` uses `/\[[^\]]*\]\(([^)]+)\)/g` with the
 *    replacement `[icon]($1)`: the link text may be empty and the url is
 *    the only capture group.
 *
 * The global replace is modelled as JavaScript performs it: scan from the
 * left, at each position try the pattern, on a match expand the
 * replacement template (with its `$` patterns) and continue after the
 * match, otherwise copy one character. A link pattern can only end where
 * its greedy runs end, so a match attempt has a single outcome.
 */
module MarkdownLinks {
  import opened Wrappers
  import opened JsStrings

  // ------------------------------------------------------------ pattern

  /** The two patterns differ in whether the link text may be empty and whether it is captured. */
  datatype Pattern = Pattern(emptyTextAllowed: bool, capturesText: bool)

  /** `/\[([^\]]+)\]\(([^)]+)\)/g` */
  const ReplacePattern: Pattern := Pattern(false, true)

  /** `/\[[^\]]*\]\(([^)]+)\)/g` */
  const TransformPattern: Pattern := Pattern(true, false)

  /** A link found at the start of the input. */
  datatype LinkMatch = LinkMatch(text: string, url: string)

  /** The link as written: `[text](url)`. */
  function LinkString(text: string, url: string): string
  {
    "[" + text + "](" + url + ")"
  }

  function MatchLength(m: LinkMatch): nat
  {
    |m.text| + |m.url| + 4
  }

  predicate ValidText(p: Pattern, text: string)
  {
    ']' !in text && (p.emptyTextAllowed || text != "")
  }

  predicate ValidUrl(url: string)
  {
    ')' !in url && url != ""
  }

  /** `s` starts with the link `m`, and `m` is one the pattern accepts. */
  predicate LinkAt(p: Pattern, s: string, m: LinkMatch)
  {
    ValidText(p, m.text) && ValidUrl(m.url) && LinkString(m.text, m.url) <= s
  }

  /** `\]\(([^)]+)\)` at the start of `r`: the url, if the rest of a link follows. */
  function LinkTail(r: string): Option<string>
  {
    if |r| < 2 || r[0] != ']' || r[1] != '(' then None
    else
      var k := IndexOf(r[2..], ')');
      if k == |r| - 2 || k == 0 then None
      else Some(r[2..2 + k])
  }

  /** What the tail finds is a url the pattern accepts, closed by `)`. */
  lemma LinkTailSound(r: string)
    requires LinkTail(r).Some?
    ensures ValidUrl(LinkTail(r).value) && "](" + LinkTail(r).value + ")" <= r
  {
    var k := IndexOf(r[2..], ')');
    assert r[2..][..k] == r[2..2 + k];
    assert r[..k + 3] == "](" + r[2..2 + k] + ")";
  }

  /** The position of `c` is the first one. */
  lemma IndexOfAt(s: string, c: char, k: nat)
    requires k < |s| && s[k] == c && c !in s[..k]
    ensures IndexOf(s, c) == k
  {
  }

  /**
   * The declarative reading of a pattern at the start of `s`: `[`, the text
   * up to the first `]`, then `(`, the url up to the first `)` after it,
   * and `)`. Backtracking cannot help a failed attempt, since each run
   * stops at the first character it excludes, which is the one the pattern
   * needs next.
   */
  function FirstLink(p: Pattern, s: string): Option<LinkMatch>
  {
    if |s| == 0 || s[0] != '[' then None
    else
      var t := 1 + IndexOf(s[1..], ']');
      if !p.emptyTextAllowed && t == 1 then None
      else
        match LinkTail(s[t..])
        case None => None
        case Some(url) => Some(LinkMatch(s[1..t], url))
  }

  /** One match attempt at the start of `s`, scanning as the regular expression engine does. */
  function MatchAt(p: Pattern, s: string): (r: Option<LinkMatch>)
    ensures r.Some? ==> MatchLength(r.value) <= |s|
    ensures |s| == 0 || s[0] != '[' ==> r.None?
  {
    if |s| == 0 || s[0] != '[' then None else TextRun(p, s, 1)
  }

  /** The text run from `j`: it ends at the first `]`, which must be followed by `(`. */
  function TextRun(p: Pattern, s: string, j: nat): (r: Option<LinkMatch>)
    requires 1 <= j <= |s|
    ensures r.Some? ==> MatchLength(r.value) <= |s|
    decreases |s| - j
  {
    if j == |s| then None
    else if s[j] != ']' then TextRun(p, s, j + 1)
    else if !p.emptyTextAllowed && j == 1 then None
    else if j + 1 < |s| && s[j + 1] == '(' then UrlRun(s, j, j + 2)
    else None
  }

  /** The url run from `k`, the text having ended at `t`: it ends at the first `)` and may not be empty. */
  function UrlRun(s: string, t: nat, k: nat): (r: Option<LinkMatch>)
    requires 1 <= t && t + 2 <= k <= |s|
    ensures r.Some? ==> MatchLength(r.value) <= |s|
    decreases |s| - k
  {
    if k == |s| then None
    else if s[k] != ')' then UrlRun(s, t, k + 1)
    else if k == t + 2 then None
    else Some(LinkMatch(s[1..t], s[t + 2..k]))
  }

  /** From a position inside the url, the scan ends where the declarative reading does. */
  lemma {:induction false} UrlRunFindsTail(s: string, t: nat, k: nat)
    requires 1 <= t && t + 2 <= k <= |s| && s[t] == ']' && s[t + 1] == '('
    requires ')' !in s[t + 2..k]
    ensures UrlRun(s, t, k) ==
      match LinkTail(s[t..]) case None => None case Some(url) => Some(LinkMatch(s[1..t], url))
    decreases |s| - k
  {
    var r := s[t..];
    assert r[2..] == s[t + 2..];
    var q := IndexOf(r[2..], ')');
    if k == |s| {
    } else if s[k] != ')' {
      assert s[t + 2..k + 1] == s[t + 2..k] + [s[k]];
      UrlRunFindsTail(s, t, k + 1);
    } else {
      assert r[2..][..k - t - 2] == s[t + 2..k];
      IndexOfAt(r[2..], ')', k - t - 2);
      assert r[2..2 + q] == s[t + 2..k];
    }
  }

  /** From a position inside the text, the scan ends where the declarative reading does. */
  lemma {:induction false} TextRunFindsLink(p: Pattern, s: string, j: nat)
    requires 1 <= j <= |s| && s[0] == '[' && ']' !in s[1..j]
    ensures TextRun(p, s, j) == FirstLink(p, s)
    decreases |s| - j
  {
    var t := 1 + IndexOf(s[1..], ']');
    if j == |s| {
      assert s[t..] == [];
    } else if s[j] != ']' {
      assert s[1..j + 1] == s[1..j] + [s[j]];
      TextRunFindsLink(p, s, j + 1);
    } else {
      assert s[1..][..j - 1] == s[1..j];
      IndexOfAt(s[1..], ']', j - 1);
      if j + 1 < |s| && s[j + 1] == '(' {
        UrlRunFindsTail(s, j, j + 2);
      }
    }
  }

  /** The scan finds exactly the link the declarative reading describes. */
  lemma MatchAtIsFirstLink(p: Pattern, s: string)
    ensures MatchAt(p, s) == FirstLink(p, s)
  {
    if |s| > 0 && s[0] == '[' {
      TextRunFindsLink(p, s, 1);
    }
  }

  /** Once the text run of a link is known, only the rest after the `]` decides the match. */
  lemma FirstLinkShape(p: Pattern, a: string, v: string)
    requires ']' !in a && v != [] && v[0] == ']'
    ensures FirstLink(p, "[" + a + v) ==
      if !p.emptyTextAllowed && a == [] then None
      else match LinkTail(v) case None => None case Some(url) => Some(LinkMatch(a, url))
  {
    var w := "[" + a + v;
    assert w[1..] == a + v;
    assert (a + v)[..|a|] == a;
    IndexOfAt(a + v, ']', |a|);
    assert w[1 + |a|..] == v;
    assert w[1..1 + |a|] == a;
  }

  /** Whatever the attempt finds is a link the pattern accepts, at the start of `s`. */
  lemma MatchAtSound(p: Pattern, s: string)
    requires MatchAt(p, s).Some?
    ensures LinkAt(p, s, MatchAt(p, s).value)
  {
    MatchAtIsFirstLink(p, s);
    FirstLinkSound(p, s);
  }

  lemma FirstLinkSound(p: Pattern, s: string)
    requires FirstLink(p, s).Some?
    ensures LinkAt(p, s, FirstLink(p, s).value)
  {
    var t := 1 + IndexOf(s[1..], ']');
    var a, v := s[1..t], s[t..];
    assert ']' !in a by {
      assert s[1..][..t - 1] == a;
    }
    assert s == "[" + a + v;
    LinkOfParts(p, a, v);
  }

  /** A `[`, a text the pattern accepts and a link tail make a link. */
  lemma LinkOfParts(p: Pattern, a: string, v: string)
    requires ValidText(p, a) && LinkTail(v).Some?
    ensures LinkAt(p, "[" + a + v, LinkMatch(a, LinkTail(v).value))
  {
    var url := LinkTail(v).value;
    LinkTailSound(v);
    var tail := "](" + url + ")";
    assert LinkString(a, url) == "[" + a + tail;
    PrefixAfter("[" + a, tail, v);
  }

  /** A prefix stays a prefix behind a common start. */
  lemma PrefixAfter(a: string, b: string, c: string)
    requires b <= c
    ensures a + b <= a + c
  {
    assert (a + c)[..|a + b|] == a + c[..|b|];
  }

  /** The rest of a link after its text is found as such. */
  lemma LinkTailComplete(r: string, url: string)
    requires ValidUrl(url) && "](" + url + ")" <= r
    ensures LinkTail(r) == Some(url)
  {
    assert r[..|url| + 3] == "](" + url + ")";
    assert r[0] == ']' && r[1] == '(';
    var v := r[2..];
    assert v[..|url|] == url && v[|url|] == ')';
    IndexOfAt(v, ')', |url|);
    assert r[2..2 + |url|] == url;
  }

  /** Every link the pattern accepts at the start is the one the attempt finds. */
  lemma MatchAtComplete(p: Pattern, s: string, m: LinkMatch)
    requires LinkAt(p, s, m)
    ensures MatchAt(p, s) == Some(m)
  {
    var ls := LinkString(m.text, m.url);
    var v := s[|m.text| + 1..];
    assert s[..|ls|] == ls;
    assert s == "[" + m.text + v;
    assert v[..|m.url| + 3] == "](" + m.url + ")";
    LinkTailComplete(v, m.url);
    FirstLinkShape(p, m.text, v);
    MatchAtIsFirstLink(p, s);
  }

  /** Every accepted link holds a `]` and a `)`. */
  lemma MatchHasBrackets(p: Pattern, s: string)
    requires MatchAt(p, s).Some?
    ensures ']' in s && ')' in s
  {
    MatchAtSound(p, s);
    var m := MatchAt(p, s).value;
    var ls := LinkString(m.text, m.url);
    assert ls[|m.text| + 1] == ']' && ls[|ls| - 1] == ')';
    assert s[|m.text| + 1] == ']' && s[|ls| - 1] == ')';
  }

  // ---------------------------------------------------------- reference

  /**
   * The intended effect: every link the pattern accepts, scanning from the
   * left, gets `caption` as its text and keeps its url; everything else is
   * copied.
   */
  function Relabel(p: Pattern, s: string, caption: string): string
    decreases |s|
  {
    if s == [] then []
    else
      var found := MatchAt(p, s);
      if found.Some? then
        var m := found.value;
        LinkString(caption, m.url) + Relabel(p, s[MatchLength(m)..], caption)
      else [s[0]] + Relabel(p, s[1..], caption)
  }

  // ---------------------------------------------------------- replace

  /**
   * `GetSubstitution`: expand the `$` patterns of a replacement template
   * for a match of length `len` at `pos` in `s`: `$$`, `$&`, `` $` ``, `$'`,
   * and `$n`/`$nn` for a capture that exists (a two-digit index beyond the
   * captures is read as one digit followed by a literal digit); any other
   * `$` is literal. There are no named groups, so `$<` is literal too.
   */
  function Substitute(tmpl: string, s: string, pos: nat, len: nat, captures: seq<string>): string
    requires pos + len <= |s|
    decreases |tmpl|
  {
    if tmpl == [] then []
    else if tmpl[0] != '$' || |tmpl| == 1 then [tmpl[0]] + Substitute(tmpl[1..], s, pos, len, captures)
    else
      var c := tmpl[1];
      if c == '$' then "$" + Substitute(tmpl[2..], s, pos, len, captures)
      else if c == '&' then s[pos..pos + len] + Substitute(tmpl[2..], s, pos, len, captures)
      else if c == '`' then s[..pos] + Substitute(tmpl[2..], s, pos, len, captures)
      else if c == '\'' then s[pos + len..] + Substitute(tmpl[2..], s, pos, len, captures)
      else if IsDigit(c) then
        var two := |tmpl| >= 3 && IsDigit(tmpl[2]);
        var index2 := if two then DigitValue(c) * 10 + DigitValue(tmpl[2]) else 0;
        if two && 1 <= index2 <= |captures| then captures[index2 - 1] + Substitute(tmpl[3..], s, pos, len, captures)
        else
          var index1 := DigitValue(c);
          if 1 <= index1 <= |captures| then captures[index1 - 1] + Substitute(tmpl[2..], s, pos, len, captures)
          else tmpl[..2] + Substitute(tmpl[2..], s, pos, len, captures)
      else "$" + Substitute(tmpl[1..], s, pos, len, captures)
  }

  /** The capture groups of a match. */
  function Captures(p: Pattern, m: LinkMatch): seq<string>
  {
    if p.capturesText then [m.text, m.url] else [m.url]
  }

  /** `s.replace(pattern, tmpl)` for a global pattern, from position `i` on. */
  function ReplaceAll(p: Pattern, s: string, i: nat, tmpl: string): string
    requires i <= |s|
    decreases |s| - i
  {
    if i == |s| then []
    else
      var found := MatchAt(p, s[i..]);
      if found.Some? then
        var m := found.value;
        Substitute(tmpl, s, i, MatchLength(m), Captures(p, m)) + ReplaceAll(p, s, i + MatchLength(m), tmpl)
      else [s[i]] + ReplaceAll(p, s, i + 1, tmpl)
  }

  /**
   * `replaceMarkdownLinkText`: with an emoji without `$` it is the reference
   * relabelling, every link's text replaced by the emoji.
   */
  function ReplaceMarkdownLinkText(text: string, emoji: string): (r: string)
    ensures '$' !in emoji ==> r == Relabel(ReplacePattern, text, emoji)
  {
    var tmpl := "[" + emoji + "]($2)";
    if '$' in emoji then ReplaceAll(ReplacePattern, text, 0, tmpl)
    else
      assert tmpl == "[" + emoji + "]($" + ['2'] + ")";
      ReplaceAllRelabels(ReplacePattern, text, 0, emoji, '2');
      assert text[0..] == text;
      ReplaceAll(ReplacePattern, text, 0, tmpl)
  }

  /** The icon: a paw print with `nyangInjection`, a paperclip otherwise (the default). */
  function Icon(nyangInjection: bool): string
  {
    if nyangInjection then "🐾" else "📎"
  }

  /** `transformLinkText`: the reference relabelling, every link's text replaced by the icon. */
  function TransformLinkText(markdown: string, nyangInjection: bool): (r: string)
    ensures r == Relabel(TransformPattern, markdown, Icon(nyangInjection))
  {
    var icon := Icon(nyangInjection);
    var tmpl := "[" + icon + "]($1)";
    assert tmpl == "[" + icon + "]($" + ['1'] + ")";
    ReplaceAllRelabels(TransformPattern, markdown, 0, icon, '1');
    assert markdown[0..] == markdown;
    ReplaceAll(TransformPattern, markdown, 0, tmpl)
  }

  // ------------------------------------------- replace against reference

  /** Template text before any `$` is copied as it is. */
  lemma {:induction false} SubstituteLiteral(a: string, b: string, s: string, pos: nat, len: nat, captures: seq<string>)
    requires pos + len <= |s| && '$' !in a
    ensures Substitute(a + b, s, pos, len, captures) == a + Substitute(b, s, pos, len, captures)
  {
    if a != [] {
      assert a[0] != '$';
      var t := a + b;
      assert t[0] == a[0] && t[1..] == a[1..] + b;
      assert Substitute(t, s, pos, len, captures) == [a[0]] + Substitute(t[1..], s, pos, len, captures);
      SubstituteLiteral(a[1..], b, s, pos, len, captures);
      assert a == [a[0]] + a[1..];
    } else {
      assert a + b == b;
    }
  }

  /** With a `$`-free caption the template `[caption]($k)` writes the caption and the url capture. */
  lemma SubstituteCaption(caption: string, k: char, s: string, pos: nat, len: nat, captures: seq<string>)
    requires pos + len <= |s| && '$' !in caption && '1' <= k <= '2' && DigitValue(k) == |captures|
    ensures Substitute("[" + caption + "]($" + [k] + ")", s, pos, len, captures) ==
      "[" + caption + "](" + captures[|captures| - 1] + ")"
  {
    var tail := "$" + [k] + ")";
    assert "[" + caption + "]($" + [k] + ")" == ("[" + caption + "](") + tail;
    SubstituteLiteral("[" + caption + "](", tail, s, pos, len, captures);
    assert tail[2..] == ")";
    assert Substitute(")", s, pos, len, captures) == ")";
  }

  /** One step of the global replace. */
  lemma {:induction false} ReplaceAllUnfold(p: Pattern, s: string, i: nat, tmpl: string)
    requires i < |s|
    ensures var found := MatchAt(p, s[i..]);
      ReplaceAll(p, s, i, tmpl) ==
      if found.Some? then
        Substitute(tmpl, s, i, MatchLength(found.value), Captures(p, found.value)) + ReplaceAll(p, s, i + MatchLength(found.value), tmpl)
      else [s[i]] + ReplaceAll(p, s, i + 1, tmpl)
  {
  }

  /** One step of the reference. */
  lemma {:induction false} RelabelUnfold(p: Pattern, s: string, caption: string)
    requires s != []
    ensures var found := MatchAt(p, s);
      Relabel(p, s, caption) ==
      if found.Some? then LinkString(caption, found.value.url) + Relabel(p, s[MatchLength(found.value)..], caption)
      else [s[0]] + Relabel(p, s[1..], caption)
  {
  }

  /**
   * For a caption without `$`, the global replace with the template
   * `[caption]($k)`, `k` naming the url capture, is exactly the reference
   * relabelling of the rest of the input.
   */
  lemma {:induction false} ReplaceAllRelabels(p: Pattern, s: string, i: nat, caption: string, k: char)
    requires i <= |s| && '$' !in caption && k == (if p.capturesText then '2' else '1')
    ensures ReplaceAll(p, s, i, "[" + caption + "]($" + [k] + ")") == Relabel(p, s[i..], caption)
    decreases |s| - i
  {
    var tmpl := "[" + caption + "]($" + [k] + ")";
    if i < |s| {
      var found := MatchAt(p, s[i..]);
      ReplaceAllUnfold(p, s, i, tmpl);
      RelabelUnfold(p, s[i..], caption);
      if found.Some? {
        var len := MatchLength(found.value);
        SubstituteCaption(caption, k, s, i, len, Captures(p, found.value));
        ReplaceAllRelabels(p, s, i + len, caption, k);
        assert s[i..][len..] == s[i + len..];
      } else {
        ReplaceAllRelabels(p, s, i + 1, caption, k);
        assert s[i..][1..] == s[i + 1..];
      }
    }
  }

  /**
   * The emoji is part of the template, so a `$` pattern in it is expanded:
   * with the emoji `$1` a link keeps its own text.
   */
  lemma DollarInEmoji(text: string, url: string)
    requires ValidText(ReplacePattern, text) && ValidUrl(url)
    ensures ReplaceMarkdownLinkText(LinkString(text, url), "$1") == LinkString(text, url)
  {
    var s := LinkString(text, url);
    var m := LinkMatch(text, url);
    MatchAtComplete(ReplacePattern, s, m);
    assert s[0..] == s;
    var tmpl := "[" + "$1" + "]($2)";
    var caps := [text, url];
    assert tmpl == "[" + ("$1]($2)");
    assert Substitute(tmpl, s, 0, |s|, caps) == "[" + Substitute("$1]($2)", s, 0, |s|, caps);
    assert Substitute("$1]($2)", s, 0, |s|, caps) == text + Substitute("]($2)", s, 0, |s|, caps);
    assert "]($2)" == "](" + "$2)";
    SubstituteLiteral("](", "$2)", s, 0, |s|, caps);
    assert Substitute("$2)", s, 0, |s|, caps) == url + Substitute(")", s, 0, |s|, caps);
    assert ReplaceAll(ReplacePattern, s, |s|, tmpl) == [];
  }

  // ------------------------------------------------ relabelling properties

  /** Text without `[` before the rest is copied unchanged. */
  lemma {:induction false} RelabelPrefix(p: Pattern, a: string, b: string, caption: string)
    requires '[' !in a
    ensures Relabel(p, a + b, caption) == a + Relabel(p, b, caption)
  {
    var s := a + b;
    if a != [] {
      assert s[0] == a[0] && s[1..] == a[1..] + b;
      assert MatchAt(p, s).None?;
      assert Relabel(p, s, caption) == [s[0]] + Relabel(p, s[1..], caption);
      RelabelPrefix(p, a[1..], b, caption);
      assert a == [a[0]] + a[1..];
    } else {
      assert s == b;
    }
  }

  /** Every accepted link gets the caption as its text and keeps its url. */
  lemma RelabelLink(p: Pattern, text: string, url: string, rest: string, caption: string)
    requires ValidText(p, text) && ValidUrl(url)
    ensures Relabel(p, LinkString(text, url) + rest, caption) == LinkString(caption, url) + Relabel(p, rest, caption)
  {
    var s := LinkString(text, url) + rest;
    MatchAtComplete(p, s, LinkMatch(text, url));
    assert s[MatchLength(LinkMatch(text, url))..] == rest;
  }

  /** Input without any link comes back unchanged. */
  lemma {:induction false} RelabelNoLink(p: Pattern, s: string, caption: string)
    requires forall k :: 0 <= k < |s| ==> MatchAt(p, s[k..]).None?
    ensures Relabel(p, s, caption) == s
    decreases |s|
  {
    if s != [] {
      assert s[0..] == s;
      forall k | 0 <= k < |s[1..]|
        ensures MatchAt(p, s[1..][k..]).None?
      {
        assert s[1..][k..] == s[k + 1..];
      }
      RelabelNoLink(p, s[1..], caption);
    }
  }

  /** Input without `]`, or without `)`, holds no link. */
  lemma RelabelNoBracket(p: Pattern, s: string, caption: string)
    requires ']' !in s || ')' !in s
    ensures Relabel(p, s, caption) == s
  {
    forall k | 0 <= k < |s|
      ensures MatchAt(p, s[k..]).None?
    {
      if MatchAt(p, s[k..]).Some? {
        MatchHasBrackets(p, s[k..]);
      }
    }
    RelabelNoLink(p, s, caption);
  }

  /** The first character survives relabelling. */
  lemma RelabelFirst(p: Pattern, s: string, caption: string)
    requires s != []
    ensures Relabel(p, s, caption) != [] && Relabel(p, s, caption)[0] == s[0]
  {
  }

  /** Positions where no link starts are copied until the first one that might. */
  lemma {:induction false} RelabelSkip(p: Pattern, s: string, k: nat, caption: string)
    requires k <= |s|
    requires forall l :: 0 <= l < k ==> MatchAt(p, s[l..]).None?
    ensures Relabel(p, s, caption) == s[..k] + Relabel(p, s[k..], caption)
  {
    if k > 0 {
      assert s[0..] == s;
      forall l | 0 <= l < k - 1
        ensures MatchAt(p, s[1..][l..]).None?
      {
        assert s[1..][l..] == s[l + 1..];
      }
      RelabelSkip(p, s[1..], k - 1, caption);
      assert s[1..][k - 1..] == s[k..];
      assert s[..k] == [s[0]] + s[1..][..k - 1];
    }
  }

  /**
   * When the link tail after a `]` is refused, it is still refused once
   * the rest of the input has been relabelled.
   */
  lemma TailRefusedAfterRelabel(p: Pattern, r: string, caption: string)
    requires r != [] && r[0] == ']' && LinkTail(r).None?
    ensures LinkTail(Relabel(p, r, caption)).None?
  {
    var x := Relabel(p, r, caption);
    assert MatchAt(p, r).None?;
    assert x == "]" + Relabel(p, r[1..], caption);
    if |r| >= 2 {
      RelabelFirst(p, r[1..], caption);
      if r[1] == '(' {
        var v := r[2..];
        assert r[1..][1..] == v;
        assert MatchAt(p, r[1..]).None?;
        var w := Relabel(p, v, caption);
        assert x == "](" + w;
        assert x[2..] == w;
        if ')' !in v {
          RelabelNoBracket(p, v, caption);
        } else {
          assert IndexOf(v, ')') == 0;
          RelabelFirst(p, v, caption);
          IndexOfAt(w, ')', 0);
        }
      }
    }
  }

  /**
   * When the rest after a text run `a` is no link tail, no link starts at a
   * `[` inside `a`: its text run ends at the same `]`.
   */
  lemma NoLinkInsideText(p: Pattern, a: string, v: string)
    requires ']' !in a && v != [] && v[0] == ']' && LinkTail(v).None?
    ensures forall l :: 0 <= l < |a| ==> MatchAt(p, (a + v)[l..]).None?
  {
    forall l | 0 <= l < |a|
      ensures MatchAt(p, (a + v)[l..]).None?
    {
      var z := (a + v)[l..];
      if z[0] == '[' {
        assert z == "[" + a[l + 1..] + v;
        FirstLinkShape(p, a[l + 1..], v);
        MatchAtIsFirstLink(p, z);
      }
    }
  }

  /** Such a text run is copied as it is. */
  lemma RelabelText(p: Pattern, a: string, v: string, caption: string)
    requires ']' !in a && v != [] && v[0] == ']' && (a == [] || LinkTail(v).None?)
    ensures Relabel(p, a + v, caption) == a + Relabel(p, v, caption)
  {
    if a != [] {
      NoLinkInsideText(p, a, v);
      RelabelSkip(p, a + v, |a|, caption);
      assert (a + v)[..|a|] == a && (a + v)[|a|..] == v;
    } else {
      assert a + v == v;
    }
  }

  /**
   * A position where no link starts stays a position where no link starts
   * once the input after it has been relabelled.
   */
  lemma RefusedAfterRelabel(p: Pattern, s: string, caption: string)
    requires s != [] && MatchAt(p, s).None?
    ensures MatchAt(p, [s[0]] + Relabel(p, s[1..], caption)).None?
  {
    if s[0] == '[' {
      var x := [s[0]] + Relabel(p, s[1..], caption);
      var t := 1 + IndexOf(s[1..], ']');
      if t == |s| {
        assert ']' !in s[1..] by {
          assert s[1..][..t - 1] == s[1..];
        }
        RelabelNoBracket(p, s[1..], caption);
        assert x == s;
      } else {
        var a, v := s[1..t], s[t..];
        assert s[1..] == a + v;
        assert ']' !in a by {
          assert s[1..][..t - 1] == a;
        }
        assert s == "[" + a + v;
        MatchAtIsFirstLink(p, s);
        FirstLinkShape(p, a, v);
        RelabelText(p, a, v, caption);
        var y := Relabel(p, v, caption);
        RelabelFirst(p, v, caption);
        assert x == "[" + a + y;
        FirstLinkShape(p, a, y);
        if p.emptyTextAllowed || a != [] {
          TailRefusedAfterRelabel(p, v, caption);
        }
        MatchAtIsFirstLink(p, x);
      }
    }
  }

  /** Relabelling twice with a caption the pattern accepts is relabelling once. */
  lemma {:induction false} RelabelIdempotent(p: Pattern, s: string, caption: string)
    requires ValidText(p, caption)
    ensures Relabel(p, Relabel(p, s, caption), caption) == Relabel(p, s, caption)
    decreases |s|
  {
    if s != [] {
      match MatchAt(p, s)
      case Some(m) =>
        MatchAtSound(p, s);
        var rest := s[MatchLength(m)..];
        RelabelLink(p, caption, m.url, Relabel(p, rest, caption), caption);
        RelabelIdempotent(p, rest, caption);
      case None =>
        var x := [s[0]] + Relabel(p, s[1..], caption);
        RefusedAfterRelabel(p, s, caption);
        assert x[1..] == Relabel(p, s[1..], caption);
        RelabelIdempotent(p, s[1..], caption);
    }
  }

  // -------------------------------------------------- the two functions

  /**
   * `replaceMarkdownLinkText` rewrites each link with non-empty text to
   * `[emoji](url)` and copies what surrounds it.
   */
  lemma ReplaceMarkdownLinkTextLink(before: string, text: string, url: string, rest: string, emoji: string)
    requires '[' !in before && ValidText(ReplacePattern, text) && ValidUrl(url) && '$' !in emoji
    ensures ReplaceMarkdownLinkText(before + LinkString(text, url) + rest, emoji) ==
      before + LinkString(emoji, url) + ReplaceMarkdownLinkText(rest, emoji)
  {
    assert before + LinkString(text, url) + rest == before + (LinkString(text, url) + rest);
    RelabelPrefix(ReplacePattern, before, LinkString(text, url) + rest, emoji);
    RelabelLink(ReplacePattern, text, url, rest, emoji);
  }

  /** `replaceMarkdownLinkText` leaves a link with empty text alone. */
  lemma ReplaceMarkdownLinkTextEmptyText(url: string, emoji: string)
    requires ValidUrl(url) && '[' !in url && '$' !in emoji
    ensures ReplaceMarkdownLinkText(LinkString("", url), emoji) == LinkString("", url)
  {
    var s := LinkString("", url);
    assert MatchAt(ReplacePattern, s).None?;
    assert '[' !in s[1..];
    RelabelPrefix(ReplacePattern, s[1..], "", emoji);
    assert s[1..] + "" == s[1..];
  }

  /** `transformLinkText` rewrites a link with empty text too. */
  lemma TransformLinkTextEmptyText(url: string, rest: string, nyangInjection: bool)
    requires ValidUrl(url)
    ensures TransformLinkText(LinkString("", url) + rest, nyangInjection) ==
      LinkString(Icon(nyangInjection), url) + TransformLinkText(rest, nyangInjection)
  {
    RelabelLink(TransformPattern, "", url, rest, Icon(nyangInjection));
  }

  /** Input without `[` comes back unchanged from either function. */
  lemma NoLinkUnchanged(s: string, emoji: string, nyangInjection: bool)
    requires '[' !in s && '$' !in emoji
    ensures ReplaceMarkdownLinkText(s, emoji) == s
    ensures TransformLinkText(s, nyangInjection) == s
  {
    RelabelPrefix(ReplacePattern, s, "", emoji);
    RelabelPrefix(TransformPattern, s, "", Icon(nyangInjection));
    assert s + "" == s;
  }

  /** A second `replaceMarkdownLinkText` with the same emoji changes nothing. */
  lemma ReplaceMarkdownLinkTextIdempotent(s: string, emoji: string)
    requires emoji != "" && ']' !in emoji && '$' !in emoji
    ensures ReplaceMarkdownLinkText(ReplaceMarkdownLinkText(s, emoji), emoji) == ReplaceMarkdownLinkText(s, emoji)
  {
    RelabelIdempotent(ReplacePattern, s, emoji);
  }

  /** A second `transformLinkText` with the same flag changes nothing. */
  lemma TransformLinkTextIdempotent(s: string, nyangInjection: bool)
    ensures TransformLinkText(TransformLinkText(s, nyangInjection), nyangInjection) == TransformLinkText(s, nyangInjection)
  {
    var icon := Icon(nyangInjection);
    RelabelIdempotent(TransformPattern, s, icon);
  }

  /**
   * `transformLinkText` rewrites a link after plain text to `[icon](url)`,
   * the paperclip by default and the paw print with `nyangInjection`, and
   * copies what surrounds it.
   */
  lemma TransformLinkTextLink(before: string, text: string, url: string, rest: string, nyangInjection: bool)
    requires '[' !in before && ValidText(TransformPattern, text) && ValidUrl(url)
    ensures TransformLinkText(before + LinkString(text, url) + rest, nyangInjection) ==
      before + LinkString(Icon(nyangInjection), url) + TransformLinkText(rest, nyangInjection)
  {
    var icon := Icon(nyangInjection);
    assert before + LinkString(text, url) + rest == before + (LinkString(text, url) + rest);
    RelabelPrefix(TransformPattern, before, LinkString(text, url) + rest, icon);
    RelabelLink(TransformPattern, text, url, rest, icon);
  }
}
