/**
 * `removeHeaders` of lib/encoders.js: find the first PEM armour
 * `-----BEGIN w-----body-----END w-----` (the regular expression
 * `/-----BEGIN (\w*)-----([^-]*)-----END (\w*)-----/`) and return its body
 * with every character of the class `[\n|\r\n]` (line feed, `|`, carriage
 * return) deleted.
 */
module Encoders {
  import opened Js

  /** `\w`: ASCII letters, digits and `_`. */
  predicate IsWordChar(ch: char) {
    ('a' <= ch <= 'z') || ('A' <= ch <= 'Z') || ('0' <= ch <= '9') || ch == '_'
  }

  /** The characters of the class `[\n|\r\n]`. */
  predicate IsStripped(ch: char) {
    ch == '\n' || ch == '|' || ch == '\r'
  }

  /** `s[from..to]` is made of `\w` characters. */
  ghost predicate AllWord(s: string, from: nat, to: nat)
    requires from <= to <= |s|
  {
    forall k :: from <= k < to ==> IsWordChar(s[k])
  }

  /** `s[from..to]` contains no `-`. */
  ghost predicate NoDash(s: string, from: nat, to: nat)
    requires from <= to <= |s|
  {
    forall k :: from <= k < to ==> s[k] != '-'
  }

  /**
   * The regular expression matches at position `i` with its first group
   * ending at `a`, its body group being `s[a + 5..b]` and its last group
   * ending at `c`.
   */
  ghost predicate ArmourAt(s: string, i: nat, a: nat, b: nat, c: nat) {
    && i + 11 <= a && a + 5 <= b && b + 9 <= c && c + 5 <= |s|
    && s[i..i + 11] == "-----BEGIN "
    && AllWord(s, i + 11, a)
    && s[a..a + 5] == "-----"
    && NoDash(s, a + 5, b)
    && s[b..b + 9] == "-----END "
    && AllWord(s, b + 9, c)
    && s[c..c + 5] == "-----"
  }

  /** Where a greedy `\w*` starting at `j` stops. */
  function WordEnd(s: string, j: nat): (r: nat)
    requires j <= |s|
    ensures j <= r <= |s|
    ensures forall k :: j <= k < r ==> IsWordChar(s[k])
    ensures r < |s| ==> !IsWordChar(s[r])
    decreases |s| - j
  {
    if j == |s| || !IsWordChar(s[j]) then j else WordEnd(s, j + 1)
  }

  /** Where a greedy `[^-]*` starting at `j` stops. */
  function NonDashEnd(s: string, j: nat): (r: nat)
    requires j <= |s|
    ensures j <= r <= |s|
    ensures forall k :: j <= k < r ==> s[k] != '-'
    ensures r < |s| ==> s[r] == '-'
    decreases |s| - j
  {
    if j == |s| || s[j] == '-' then j else NonDashEnd(s, j + 1)
  }

  /**
   * The regular expression tried at position `i`. Each greedy group is
   * followed by a `-` that the group cannot consume, so backtracking never
   * helps and one attempt decides the position.
   */
  function MatchAt(s: string, i: nat): Option<(nat, nat, nat)>
    requires i <= |s|
  {
    if i + 11 <= |s| && s[i..i + 11] == "-----BEGIN " then AfterBegin(s, WordEnd(s, i + 11)) else None
  }

  /** The rest of the attempt once `-----BEGIN w` has been read up to `a`. */
  function AfterBegin(s: string, a: nat): Option<(nat, nat, nat)>
    requires a <= |s|
  {
    if a + 5 <= |s| && s[a..a + 5] == "-----" then AfterBody(s, a, NonDashEnd(s, a + 5)) else None
  }

  /** The rest of the attempt once the body has been read up to `b`. */
  function AfterBody(s: string, a: nat, b: nat): Option<(nat, nat, nat)>
    requires b <= |s|
  {
    if b + 9 <= |s| && s[b..b + 9] == "-----END " then AfterEnd(s, a, b, WordEnd(s, b + 9)) else None
  }

  /** The closing `-----` after `-----END w` read up to `c`. */
  function AfterEnd(s: string, a: nat, b: nat, c: nat): Option<(nat, nat, nat)>
  {
    if c + 5 <= |s| && s[c..c + 5] == "-----" then Some((a, b, c)) else None
  }

  /** `exec` scans positions from `i` upwards and stops at the first that matches. */
  function FirstMatch(s: string, i: nat): (r: Option<(nat, nat, nat, nat)>)
    requires i <= |s|
    ensures r.Some? ==> i <= r.value.0 <= |s|
    decreases |s| - i
  {
    var m := MatchAt(s, i);
    if m.Some? then Some((i, m.value.0, m.value.1, m.value.2))
    else if i == |s| then None
    else FirstMatch(s, i + 1)
  }

  /** The position the scan reports is one where the pattern matches, with the groups found there. */
  lemma {:induction false} FirstMatchSound(s: string, i: nat)
    requires i <= |s|
    ensures var r := FirstMatch(s, i);
            r.Some? ==> MatchAt(s, r.value.0) == Some((r.value.1, r.value.2, r.value.3))
    decreases |s| - i
  {
    if MatchAt(s, i).None? && i < |s| {
      FirstMatchSound(s, i + 1);
    }
  }

  /** No position before the reported one matches; when nothing is reported, no position matches. */
  lemma {:induction false} FirstMatchLeftmost(s: string, i: nat)
    requires i <= |s|
    ensures var r := FirstMatch(s, i);
            && (r.Some? ==> forall q :: i <= q < r.value.0 ==> MatchAt(s, q).None?)
            && (r.None? ==> forall q :: i <= q <= |s| ==> MatchAt(s, q).None?)
    decreases |s| - i
  {
    var r := FirstMatch(s, i);
    if MatchAt(s, i).None? && i < |s| {
      FirstMatchLeftmost(s, i + 1);
      assert r == FirstMatch(s, i + 1);
      var end := if r.Some? then r.value.0 else |s| + 1;
      forall q | i <= q < end
        ensures MatchAt(s, q).None?
      {
        if q == i {
        } else {
          assert i + 1 <= q;
        }
      }
    }
  }

  /** `replace(/[\n|\r\n]/g, "")`. */
  function Strip(t: string): (r: string)
    ensures |r| <= |t|
    ensures forall k :: 0 <= k < |r| ==> !IsStripped(r[k])
    ensures forall k :: 0 <= k < |r| ==> r[k] in t
  {
    if t == [] then []
    else if IsStripped(t[0]) then Strip(t[1..])
    else [t[0]] + Strip(t[1..])
  }

  /** `removeHeaders(cert)`; `None` is `null` or `undefined`. */
  function RemoveHeaders(cert: Option<string>): (r: string)
    ensures !Truthy(cert) ==> r == ""
    ensures forall k :: 0 <= k < |r| ==> !IsStripped(r[k]) && r[k] != '-'
  {
    var s := if Truthy(cert) then cert.value else "";
    FirstMatchSound(s, 0);
    match FirstMatch(s, 0)
    case None => ""
    case Some((i, a, b, c)) =>
      MatchAtSound(s, i);
      Strip(s[a + 5..b])
  }

  /** A greedy `\w*` that is followed by a non-word character stops exactly there. */
  lemma {:induction false} WordEndAt(s: string, j: nat, a: nat)
    requires j <= a < |s|
    requires forall k :: j <= k < a ==> IsWordChar(s[k])
    requires !IsWordChar(s[a])
    ensures WordEnd(s, j) == a
    decreases a - j
  {
    if j < a {
      WordEndAt(s, j + 1, a);
    }
  }

  /** A greedy `[^-]*` that is followed by `-` stops exactly there. */
  lemma {:induction false} NonDashEndAt(s: string, j: nat, b: nat)
    requires j <= b < |s|
    requires forall k :: j <= k < b ==> s[k] != '-'
    requires s[b] == '-'
    ensures NonDashEnd(s, j) == b
    decreases b - j
  {
    if j < b {
      NonDashEndAt(s, j + 1, b);
    }
  }

  /** Every match the scanner reports is an armour in the sense of the regular expression. */
  lemma MatchAtSound(s: string, i: nat)
    requires i <= |s|
    ensures MatchAt(s, i).Some? ==>
              var m := MatchAt(s, i).value; ArmourAt(s, i, m.0, m.1, m.2)
  {
  }

  /** Every armour is found by the scanner at its position, with the same groups. */
  lemma MatchAtComplete(s: string, i: nat, a: nat, b: nat, c: nat)
    requires ArmourAt(s, i, a, b, c)
    ensures MatchAt(s, i) == Some((a, b, c))
  {
    assert s[a] == s[a..a + 5][0];
    assert s[b] == s[b..b + 9][0];
    assert s[c] == s[c..c + 5][0];
    WordEndAt(s, i + 11, a);
    NonDashEndAt(s, a + 5, b);
    WordEndAt(s, b + 9, c);
    assert AfterEnd(s, a, b, c) == Some((a, b, c));
    assert AfterBody(s, a, b) == Some((a, b, c));
    assert AfterBegin(s, a) == Some((a, b, c));
  }

  /** Without any armour in the text, the result is "". */
  lemma NoArmourGivesEmpty(cert: string)
    requires forall i, a, b, c :: !ArmourAt(cert, i, a, b, c)
    ensures RemoveHeaders(Some(cert)) == ""
  {
    if cert != "" {
      FirstMatchSound(cert, 0);
      match FirstMatch(cert, 0)
      case None =>
      case Some((i, a, b, c)) =>
        MatchAtSound(cert, i);
        assert false;
    }
  }

  /**
   * The result is the body of the leftmost armour with line feeds,
   * carriage returns and `|` removed.
   */
  lemma {:induction false} FirstArmourBody(cert: string, i: nat, a: nat, b: nat, c: nat)
    requires ArmourAt(cert, i, a, b, c)
    requires forall q: nat, a': nat, b': nat, c': nat :: q < i ==> !ArmourAt(cert, q, a', b', c')
    ensures RemoveHeaders(Some(cert)) == Strip(cert[a + 5..b])
  {
    FirstMatchIsLeftmostArmour(cert, i, a, b, c);
    assert Truthy(Some(cert));
  }

  /** The scan stops at the leftmost armour, with its groups. */
  lemma FirstMatchIsLeftmostArmour(cert: string, i: nat, a: nat, b: nat, c: nat)
    requires ArmourAt(cert, i, a, b, c)
    requires forall q: nat, a': nat, b': nat, c': nat :: q < i ==> !ArmourAt(cert, q, a', b', c')
    ensures FirstMatch(cert, 0) == Some((i, a, b, c))
  {
    MatchAtComplete(cert, i, a, b, c);
    FirstMatchSound(cert, 0);
    FirstMatchLeftmost(cert, 0);
    var fm := FirstMatch(cert, 0);
    assert fm.Some? && fm.value.0 <= i;
    var q := fm.value.0;
    MatchAtSound(cert, q);
    assert ArmourAt(cert, q, fm.value.1, fm.value.2, fm.value.3);
  }

  /** Deleting characters commutes with concatenation. */
  lemma {:induction false} StripConcat(x: string, y: string)
    ensures Strip(x + y) == Strip(x) + Strip(y)
  {
    if x == [] {
      assert x + y == y;
    } else {
      assert (x + y)[0] == x[0];
      assert (x + y)[1..] == x[1..] + y;
      StripConcat(x[1..], y);
    }
  }

  /** Text without line breaks or `|` is kept as it is. */
  lemma {:induction false} StripKeeps(t: string)
    requires forall k :: 0 <= k < |t| ==> !IsStripped(t[k])
    ensures Strip(t) == t
  {
    if t != [] {
      StripKeeps(t[1..]);
    }
  }

  /** The pieces of a leading armour, laid end to end, form an armour at position 0. */
  lemma ArmourOfPieces(w1: string, body: string, w2: string, tail: string)
    requires forall k :: 0 <= k < |w1| ==> IsWordChar(w1[k])
    requires forall k :: 0 <= k < |body| ==> body[k] != '-'
    requires forall k :: 0 <= k < |w2| ==> IsWordChar(w2[k])
    ensures var s := "-----BEGIN " + w1 + "-----" + body + "-----END " + w2 + "-----" + tail;
            var a := 11 + |w1|; var b := a + 5 + |body|; var c := b + 9 + |w2|;
            ArmourAt(s, 0, a, b, c) && s[a + 5..b] == body
  {
    ArmourLiterals(w1, body, w2, tail);
    ArmourGroups(w1, body, w2, tail);
  }

  /** The fixed parts of the laid-out armour sit where the pattern expects them. */
  lemma ArmourLiterals(w1: string, body: string, w2: string, tail: string)
    ensures var s := "-----BEGIN " + w1 + "-----" + body + "-----END " + w2 + "-----" + tail;
            var a := 11 + |w1|; var b := a + 5 + |body|; var c := b + 9 + |w2|;
            && c + 5 <= |s|
            && s[0..11] == "-----BEGIN " && s[a..a + 5] == "-----" && s[b..b + 9] == "-----END "
            && s[c..c + 5] == "-----" && s[a + 5..b] == body
  {
    var s1 := "-----BEGIN " + w1;
    var s2 := s1 + "-----";
    var s3 := s2 + body;
    var s4 := s3 + "-----END ";
    var s5 := s4 + w2;
    var s6 := s5 + "-----";
    var s := s6 + tail;
    var a, b, c := |s1|, |s3|, |s5|;
    assert s[..|s6|] == s6;
    assert s6[..|s5|] == s5;
    assert s5[..|s4|] == s4;
    assert s4[..|s3|] == s3;
    assert s3[..|s2|] == s2;
    assert s2[..|s1|] == s1;
    assert s[0..11] == s1[0..11] == "-----BEGIN ";
    assert s[a..a + 5] == s2[a..] == "-----";
    assert s[b..b + 9] == s4[b..] == "-----END ";
    assert s[c..c + 5] == s6[c..] == "-----";
    assert s[a + 5..b] == s3[a + 5..] == body;
  }

  /** The groups of the laid-out armour hold word characters and a body without `-`. */
  lemma ArmourGroups(w1: string, body: string, w2: string, tail: string)
    requires forall k :: 0 <= k < |w1| ==> IsWordChar(w1[k])
    requires forall k :: 0 <= k < |body| ==> body[k] != '-'
    requires forall k :: 0 <= k < |w2| ==> IsWordChar(w2[k])
    ensures var s := "-----BEGIN " + w1 + "-----" + body + "-----END " + w2 + "-----" + tail;
            var a := 11 + |w1|; var b := a + 5 + |body|; var c := b + 9 + |w2|;
            && c + 5 <= |s|
            && AllWord(s, 11, a) && NoDash(s, a + 5, b) && AllWord(s, b + 9, c)
  {
    var s1 := "-----BEGIN " + w1;
    var s2 := s1 + "-----";
    var s3 := s2 + body;
    var s4 := s3 + "-----END ";
    var s5 := s4 + w2;
    var s6 := s5 + "-----";
    var s := s6 + tail;
    var a, b, c := |s1|, |s3|, |s5|;
    assert s[..|s6|] == s6;
    assert s6[..|s5|] == s5;
    assert s5[..|s4|] == s4;
    assert s4[..|s3|] == s3;
    assert s3[..|s2|] == s2;
    assert s2[..|s1|] == s1;
    assert AllWord(s, 11, a) by {
      forall k | 11 <= k < a ensures IsWordChar(s[k]) {
        assert s[k] == s1[k] == w1[k - 11];
      }
    }
    assert NoDash(s, a + 5, b) by {
      forall k | a + 5 <= k < b ensures s[k] != '-' {
        assert s[k] == s3[k] == body[k - (a + 5)];
      }
    }
    assert AllWord(s, b + 9, c) by {
      forall k | b + 9 <= k < c ensures IsWordChar(s[k]) {
        assert s[k] == s5[k] == w2[k - (b + 9)];
      }
    }
  }

  /** A text that starts with an armour yields that armour's body, stripped. */
  lemma LeadingArmour(w1: string, body: string, w2: string, tail: string)
    requires forall k :: 0 <= k < |w1| ==> IsWordChar(w1[k])
    requires forall k :: 0 <= k < |body| ==> body[k] != '-'
    requires forall k :: 0 <= k < |w2| ==> IsWordChar(w2[k])
    ensures RemoveHeaders(Some("-----BEGIN " + w1 + "-----" + body + "-----END " + w2 + "-----" + tail)) == Strip(body)
  {
    var s := "-----BEGIN " + w1 + "-----" + body + "-----END " + w2 + "-----" + tail;
    var a := 11 + |w1|;
    var b := a + 5 + |body|;
    var c := b + 9 + |w2|;
    assert ArmourAt(s, 0, a, b, c) && s[a + 5..b] == body by {
      ArmourOfPieces(w1, body, w2, tail);
    }
    FirstArmourBody(s, 0, a, b, c);
  }
}
