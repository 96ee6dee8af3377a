/**
 * Title and artist normalisation of the music-sync plugin
 * (plugins/syncmusiclist/utils.py): the bracket eraser `sub_str`, the
 * Chinese-character test and run extraction, and their composition
 * `change_str`.
 */
module TextUtils {
  import opened Wrappers

  /** The six characters that open a bracketed annotation. */
  predicate IsOpener(c: char)
  {
    c == '(' || c == '（' || c == '[' || c == '【' || c == '<' || c == '《'
  }

  /** The six characters that close one; any closer ends any opener. */
  predicate IsCloser(c: char)
  {
    c == ')' || c == '）' || c == ']' || c == '】' || c == '>' || c == '》'
  }

  /** The characters Python's `\s` matches in a `str` pattern (`str.isspace`). */
  predicate IsSpace(c: char)
  {
    ('\t' <= c <= '\r') || ('\U{1C}' <= c <= '\U{1F}') || c == ' ' || c == '\U{85}' || c == '\U{A0}'
    || c == '\U{1680}' || ('\U{2000}' <= c <= '\U{200A}') || c == '\U{2028}' || c == '\U{2029}'
    || c == '\U{202F}' || c == '\U{205F}' || c == '\U{3000}'
  }

  /** The class `[一-龥]`: a part of the CJK Unified Ideographs block only. */
  predicate IsChinese(c: char)
  {
    '\U{4E00}' <= c <= '\U{9FA5}'
  }

  predicate AllSpace(s: string, lo: nat, hi: nat)
    requires lo <= hi <= |s|
  {
    forall t :: lo <= t < hi ==> IsSpace(s[t])
  }

  /** No opener of `s` has a closer anywhere after it. */
  predicate NoBracketSpan(s: string)
  {
    forall i, j :: 0 <= i < j < |s| ==> !(IsOpener(s[i]) && IsCloser(s[j]))
  }

  /** Where the match of the pattern starts its opener, has its closer and ends. */
  datatype Span = Span(open: nat, close: nat, end: nat)

  /** End of the run of whitespace that starts at `from` (the greedy `\s*`). */
  function SpaceRunEnd(s: string, from: nat): (k: nat)
    requires from <= |s|
    ensures from <= k <= |s| && AllSpace(s, from, k)
    ensures k == |s| || !IsSpace(s[k])
    decreases |s| - from
  {
    if from == |s| || !IsSpace(s[from]) then from else SpaceRunEnd(s, from + 1)
  }

  /** Index of the first closer at or after `from`, or `|s|` (the greedy `[^closers]*`). */
  function NextCloser(s: string, from: nat): (k: nat)
    requires from <= |s|
    ensures from <= k <= |s|
    ensures forall t :: from <= t < k ==> !IsCloser(s[t])
    ensures k < |s| ==> IsCloser(s[k])
    decreases |s| - from
  {
    if from == |s| || IsCloser(s[from]) then from else NextCloser(s, from + 1)
  }

  /**
   * The match of `\s*[opener][^closer]*[closer]\s*` anchored at the start of
   * `s`: skip the whitespace, require an opener, run to the first closer after
   * it, then take the whitespace behind that closer.
   */
  function MatchAt(s: string): Option<Span>
  {
    var open := SpaceRunEnd(s, 0);
    if open < |s| && IsOpener(s[open]) then
      var close := NextCloser(s, open + 1);
      if close < |s| then Some(Span(open, close, SpaceRunEnd(s, close + 1))) else None
    else None
  }

  /**
   * What Python's backtracking matcher finds at the start of `s`: there is a
   * match exactly when some opener, preceded by whitespace only, has a closer
   * after it; the match then ends at the first closer after that opener, plus
   * all the whitespace that follows it.
   */
  lemma MatchAtSpec(s: string)
    ensures MatchAt(s).None? <==>
      forall i, j :: 0 <= i < j < |s| && AllSpace(s, 0, i) ==> !(IsOpener(s[i]) && IsCloser(s[j]))
    ensures MatchAt(s).Some? ==>
      var m := MatchAt(s).value;
      && m.open < m.close < m.end <= |s|
      && AllSpace(s, 0, m.open) && IsOpener(s[m.open])
      && (forall t :: m.open < t < m.close ==> !IsCloser(s[t]))
      && IsCloser(s[m.close])
      && AllSpace(s, m.close + 1, m.end)
      && (m.end == |s| || !IsSpace(s[m.end]))
  {
    var open := SpaceRunEnd(s, 0);
    if open < |s| && IsOpener(s[open]) {
      var close := NextCloser(s, open + 1);
      if close == |s| {
        forall i, j | 0 <= i < j < |s| && AllSpace(s, 0, i) && IsOpener(s[i])
          ensures !IsCloser(s[j])
        {
        }
      }
    } else {
      forall i | 0 <= i < |s| && AllSpace(s, 0, i) ensures !IsOpener(s[i]) {
      }
    }
  }

  /** Putting `c` in front keeps a string span-free when `c` is no opener or nothing after it closes. */
  lemma ConsNoBracketSpan(c: char, rest: string)
    requires NoBracketSpan(rest)
    requires IsOpener(c) ==> forall k :: 0 <= k < |rest| ==> !IsCloser(rest[k])
    ensures NoBracketSpan([c] + rest)
  {
    var r := [c] + rest;
    forall i, j | 0 <= i < j < |r| ensures !(IsOpener(r[i]) && IsCloser(r[j])) {
      assert r[j] == rest[j - 1];
      if i > 0 { assert r[i] == rest[i - 1]; }
    }
  }

  /**
   * `sub_str`: `re.sub` of the bracket pattern by the empty string. The scan
   * tries the pattern at the current position; on a match it drops the
   * matched span and resumes behind it, otherwise it keeps one character and
   * moves on.
   */
  function SubStr(s: string): string
    decreases |s|
  {
    if |s| == 0 then ""
    else match MatchAt(s)
      case Some(m) => SubStr(s[m.end..])
      case None => [s[0]] + SubStr(s[1..])
  }

  /** A string in which no opener is followed by a closer is left as it is. */
  lemma {:induction false} SubStrFixpoint(s: string)
    requires NoBracketSpan(s)
    ensures SubStr(s) == s
    decreases |s|
  {
    if |s| > 0 {
      MatchAtSpec(s);
      assert MatchAt(s).None?;
      assert NoBracketSpan(s[1..]) by {
        forall i, j | 0 <= i < j < |s[1..]| ensures !(IsOpener(s[1..][i]) && IsCloser(s[1..][j])) {
          assert s[1..][i] == s[i + 1] && s[1..][j] == s[j + 1];
        }
      }
      SubStrFixpoint(s[1..]);
      assert s == [s[0]] + s[1..];
    }
  }

  /** No opener of the output of `sub_str` has a closer anywhere after it. */
  lemma {:induction false} SubStrNoBracketSpan(s: string)
    ensures NoBracketSpan(SubStr(s))
    decreases |s|
  {
    if |s| > 0 {
      MatchAtSpec(s);
      match MatchAt(s)
      case Some(m) =>
        SubStrNoBracketSpan(s[m.end..]);
      case None =>
        var tail := s[1..];
        SubStrNoBracketSpan(tail);
        if IsOpener(s[0]) {
          assert forall k :: 0 <= k < |tail| ==> !IsCloser(tail[k]) by {
            forall k | 0 <= k < |tail| ensures !IsCloser(tail[k]) {
              assert tail[k] == s[k + 1];
            }
          }
          SubStrFixpoint(tail);
        }
        ConsNoBracketSpan(s[0], SubStr(tail));
    }
  }

  /** Erasing brackets twice erases nothing more. */
  lemma SubStrIdempotent(s: string)
    ensures SubStr(SubStr(s)) == SubStr(s)
  {
    SubStrNoBracketSpan(s);
    SubStrFixpoint(SubStr(s));
  }

  /** `contains_chinese`: some character lies in U+4E00..U+9FA5. */
  function ContainsChinese(t: string): (r: bool)
    ensures r <==> exists i :: 0 <= i < |t| && IsChinese(t[i])
    decreases |t|
  {
    if |t| == 0 then false
    else if IsChinese(t[0]) then true
    else
      var r := ContainsChinese(t[1..]);
      assert forall i :: 1 <= i < |t| ==> t[i] == t[1..][i - 1];
      r
  }

  /** Index of the first Chinese character at or after `from`, or `|t|`. */
  function NextChinese(t: string, from: nat): (k: nat)
    requires from <= |t|
    ensures from <= k <= |t|
    ensures forall i :: from <= i < k ==> !IsChinese(t[i])
    ensures k < |t| ==> IsChinese(t[k])
    decreases |t| - from
  {
    if from == |t| || IsChinese(t[from]) then from else NextChinese(t, from + 1)
  }

  /** End of the run of Chinese characters that starts at `from`. */
  function ChineseRunEnd(t: string, from: nat): (k: nat)
    requires from <= |t|
    ensures from <= k <= |t|
    ensures forall i :: from <= i < k ==> IsChinese(t[i])
    ensures k == |t| || !IsChinese(t[k])
    decreases |t| - from
  {
    if from == |t| || !IsChinese(t[from]) then from else ChineseRunEnd(t, from + 1)
  }

  /** `r`, found at index `i` of `t`, is the first maximal run of Chinese characters of `t`. */
  predicate IsFirstChineseRun(t: string, i: nat, r: string)
  {
    && i + |r| <= |t| && r <= t[i..] && |r| > 0
    && (forall k :: 0 <= k < |r| ==> IsChinese(r[k]))
    && (forall k :: 0 <= k < i ==> !IsChinese(t[k]))
    && (i + |r| == |t| || !IsChinese(t[i + |r|]))
  }

  /**
   * `extract_chinese`: element 0 of `findall('[一-龥]+')`, that is the
   * first maximal run of Chinese characters; `None` when there is no such
   * character, where indexing `[0]` raises.
   */
  function ExtractChinese(t: string): (r: Option<string>)
    ensures r.None? <==> !ContainsChinese(t)
    ensures r.Some? ==> exists i :: IsFirstChineseRun(t, i, r.value)
  {
    var i := NextChinese(t, 0);
    if i == |t| then None
    else
      var run := t[i..ChineseRunEnd(t, i)];
      assert IsFirstChineseRun(t, i, run);
      Some(run)
  }

  /** The first maximal run is unique. */
  lemma FirstChineseRunUnique(t: string, i: nat, r: string, i': nat, r': string)
    requires IsFirstChineseRun(t, i, r) && IsFirstChineseRun(t, i', r')
    ensures i == i' && r == r'
  {
    assert t[i..][0] == r[0] && t[i'..][0] == r'[0];
    assert IsChinese(t[i]) && IsChinese(t[i']);
  }

  /**
   * `change_str`: erase brackets, then keep only the first Chinese run when
   * there is one. As the extraction is guarded it is defined on every string.
   */
  function ChangeStr(text: string): (r: string)
    ensures ContainsChinese(SubStr(text)) ==> exists i :: IsFirstChineseRun(SubStr(text), i, r)
    ensures !ContainsChinese(SubStr(text)) ==> r == SubStr(text)
  {
    var u := SubStr(text);
    if ContainsChinese(u) then ExtractChinese(u).value else u
  }

  /** A non-empty run of Chinese characters is its own first run. */
  lemma AllChineseIsOwnRun(r: string)
    requires |r| > 0 && forall k :: 0 <= k < |r| ==> IsChinese(r[k])
    ensures IsFirstChineseRun(r, 0, r)
  {
  }

  /** Normalising an artist name twice gives the same key as normalising it once. */
  lemma ChangeStrIdempotent(text: string)
    ensures ChangeStr(ChangeStr(text)) == ChangeStr(text)
  {
    var u := SubStr(text);
    var r := ChangeStr(text);
    if ContainsChinese(u) {
      var i :| IsFirstChineseRun(u, i, r);
      assert forall k :: 0 <= k < |r| ==> !IsOpener(r[k]) by {
        forall k | 0 <= k < |r| ensures !IsOpener(r[k]) { assert IsChinese(r[k]); }
      }
      SubStrFixpoint(r);
      assert IsChinese(r[0]);
      assert ContainsChinese(r);
      var j :| IsFirstChineseRun(r, j, ChangeStr(r));
      AllChineseIsOwnRun(r);
      FirstChineseRunUnique(r, j, ChangeStr(r), 0, r);
    } else {
      SubStrIdempotent(text);
    }
  }

  /** A character that is neither whitespace nor an opener is kept and the scan moves on. */
  lemma SubStrKeeps(s: string)
    requires |s| > 0 && !IsSpace(s[0]) && !IsOpener(s[0])
    ensures SubStr(s) == [s[0]] + SubStr(s[1..])
  {
    MatchAtSpec(s);
    assert MatchAt(s).None?;
  }

  /** A whole string that is one bracket span, with nothing behind it, is erased. */
  lemma SubStrErasesSpan(s: string, open: nat, close: nat)
    requires open < close < |s|
    requires AllSpace(s, 0, open) && IsOpener(s[open]) && IsCloser(s[close])
    requires forall t :: open < t < close ==> !IsCloser(s[t])
    requires AllSpace(s, close + 1, |s|)
    ensures SubStr(s) == ""
  {
    MatchAtSpec(s);
    var m := MatchAt(s);
    assert m.Some?;
    assert s[m.value.end..] == "";
  }

  /** A prefix free of whitespace and openers passes through the scan unchanged. */
  lemma {:induction false} SubStrKeepsPrefix(p: string, q: string)
    requires forall k :: 0 <= k < |p| ==> !IsSpace(p[k]) && !IsOpener(p[k])
    ensures SubStr(p + q) == p + SubStr(q)
    decreases |p|
  {
    if |p| == 0 {
      assert p + q == q;
    } else {
      var tail := p[1..] + q;
      var x := SubStr(q);
      assert p + q == [p[0]] + tail;
      SubStrKeepsCons(p[0], tail);
      SubStrKeepsPrefix(p[1..], q);
      assert [p[0]] + (p[1..] + x) == p + x;
    }
  }

  lemma SubStrKeepsCons(c: char, rest: string)
    requires !IsSpace(c) && !IsOpener(c)
    ensures SubStr([c] + rest) == [c] + SubStr(rest)
  {
    var s := [c] + rest;
    assert s[0] == c && s[1..] == rest;
    SubStrKeeps(s);
  }

  lemma LiveSuffixErased()
    ensures SubStr(" (Live)") == ""
  {
    SubStrErasesSpan(" (Live)", 1, 6);
  }

  /** A live-version suffix is dropped from a title free of whitespace and openers, e.g. "有何不可 (Live)". */
  lemma SubStrDropsLiveSuffix(title: string)
    requires forall k :: 0 <= k < |title| ==> !IsSpace(title[k]) && !IsOpener(title[k])
    ensures SubStr(title + " (Live)") == title
  {
    SubStrKeepsPrefix(title, " (Live)");
    LiveSuffixErased();
    assert title + "" == title;
  }

  lemma AccompanimentSuffixErased()
    ensures SubStr("（伴奏）") == ""
  {
    SubStrErasesSpan("（伴奏）", 0, 3);
  }

  /** A full-width accompaniment tag is dropped from a title free of whitespace and openers, e.g. "稻香（伴奏）". */
  lemma SubStrDropsAccompaniment(title: string)
    requires forall k :: 0 <= k < |title| ==> !IsSpace(title[k]) && !IsOpener(title[k])
    ensures SubStr(title + "（伴奏）") == title
  {
    SubStrKeepsPrefix(title, "（伴奏）");
    AccompanimentSuffixErased();
    assert title + "" == title;
  }

  lemma SubStrExamplePlain()
    ensures SubStr("Plain Title") == "Plain Title"
  {
    var s := "Plain Title";
    assert forall i :: 0 <= i < |s| ==> !IsOpener(s[i]);
    SubStrFixpoint(s);
  }

  lemma MixedNameUnbracketed(t: string)
    requires t == "Eason Chan 陈奕迅"
    ensures SubStr(t) == t
  {
    assert forall i :: 0 <= i < |t| ==> !IsOpener(t[i]);
    SubStrFixpoint(t);
  }

  lemma MixedNameRun(t: string)
    requires t == "Eason Chan 陈奕迅"
    ensures ContainsChinese(t) && IsFirstChineseRun(t, 11, "陈奕迅")
  {
    var run := t[11..];
    assert run == "陈奕迅";
    assert IsChinese(t[11]);
    assert forall k :: 0 <= k < 11 ==> !IsChinese(t[k]);
    assert forall k :: 0 <= k < |run| ==> IsChinese(run[k]);
  }

  /** A romanised name followed by a Chinese one normalises to the Chinese run. */
  lemma ChangeStrExampleMixed()
    ensures ChangeStr("Eason Chan 陈奕迅") == "陈奕迅"
  {
    var t := "Eason Chan 陈奕迅";
    MixedNameUnbracketed(t);
    MixedNameRun(t);
    var r := ChangeStr(t);
    var i :| IsFirstChineseRun(t, i, r);
    FirstChineseRunUnique(t, i, r, 11, "陈奕迅");
  }

  /** A name without Chinese characters or brackets is its own key. */
  lemma ChangeStrExampleLatin()
    ensures ChangeStr("Beyond") == "Beyond"
  {
    var t := "Beyond";
    assert forall i :: 0 <= i < |t| ==> !IsOpener(t[i]) && !IsChinese(t[i]);
    SubStrFixpoint(t);
  }
}
