/** Splitting client input into lines and commands into words (sirclient.cpp,
    util.cpp). */
module Text {
  import opened Scp

  /** Every part followed by the separator. */
  function Terminated(parts: seq<string>, sep: char): string {
    if parts == [] then "" else parts[0] + [sep] + Terminated(parts[1..], sep)
  }

  predicate FreeOf(parts: seq<string>, sep: char) {
    forall p :: p in parts ==> sep !in p
  }

  lemma {:induction false} TerminatedSnoc(parts: seq<string>, p: string, sep: char)
    ensures Terminated(parts + [p], sep) == Terminated(parts, sep) + p + [sep]
  {
    if parts == [] {
      assert [p][1..] == [];
    } else {
      assert (parts + [p])[1..] == parts[1..] + [p];
      TerminatedSnoc(parts[1..], p, sep);
    }
  }

  lemma FirstPart(p: string, rest: string, q: string, rest': string, sep: char)
    requires p + [sep] + rest == q + [sep] + rest' && sep !in p && sep !in q
    ensures p == q && rest == rest'
  {
    var s := p + [sep] + rest;
    assert forall k :: 0 <= k < |p| ==> s[k] == p[k] && p[k] in p;
    assert forall k :: 0 <= k < |q| ==> s[k] == q[k] && q[k] in q;
    assert s[|p|] == sep && s[|q|] == sep;
    assert s[..|p|] == p && s[..|q|] == q;
    assert s[|p| + 1..] == rest && s[|q| + 1..] == rest';
  }

  /** A text is split in one way only. */
  lemma {:induction false} SplitUnique(a: seq<string>, b: seq<string>, sep: char)
    requires Terminated(a, sep) == Terminated(b, sep) && FreeOf(a, sep) && FreeOf(b, sep)
    ensures a == b
  {
    if a != [] && b != [] {
      FirstPart(a[0], Terminated(a[1..], sep), b[0], Terminated(b[1..], sep), sep);
      SplitUnique(a[1..], b[1..], sep);
      assert a == [a[0]] + a[1..] && b == [b[0]] + b[1..];
    }
  }

  // ------------------------------------------------------------ client lines

  predicate Complete(buf: string) { buf == "" || buf[|buf| - 1] == '\n' }

  /** Where the outer loop stands after one turn from offset: behind the next
      newline, or where it was when there is none. */
  function Turn(buf: string, offset: nat): (r: nat)
    requires offset <= |buf|
    ensures offset <= r <= |buf|
  {
    var i := Find(buf, '\n', offset);
    if i < |buf| then i + 1 else offset
  }

  /** The first position of c at or behind from, or the length if there is none. */
  function Find(s: string, c: char, from: nat): (i: nat)
    requires from <= |s|
    ensures from <= i <= |s|
    ensures c !in s[from..i]
    ensures i < |s| ==> s[i] == c
    decreases |s| - from
  {
    if from == |s| || s[from] == c then from
    else
      var i := Find(s, c, from + 1);
      assert s[from..i] == [s[from]] + s[from + 1..i];
      i
  }

  function Turns(buf: string, n: nat): (r: nat)
    ensures r <= |buf|
  {
    if n == 0 then 0 else Turn(buf, Turns(buf, n - 1))
  }

  ghost predicate Finishes(buf: string) { exists n :: Turns(buf, n) == |buf| }

  lemma {:induction false} TurnsProgress(buf: string, n: nat)
    requires Complete(buf)
    ensures Turns(buf, n) >= n || Turns(buf, n) == |buf|
  {
    if n > 0 {
      TurnsProgress(buf, n - 1);
      var at := Turns(buf, n - 1);
      if at < |buf| {
        assert buf[at..|buf|][|buf| - 1 - at] == '\n';
        assert Find(buf, '\n', at) < |buf|;
      }
    }
  }

  lemma {:induction false} TurnsStuck(buf: string, n: nat)
    requires !Complete(buf)
    ensures Turns(buf, n) < |buf|
  {
    if n > 0 {
      TurnsStuck(buf, n - 1);
    }
  }

  /** The line loop comes to an end exactly if the received bytes do: with a
      newline, or at once because there are none. On a partial last line it
      turns for ever. */
  lemma FinishesExactly(buf: string)
    ensures Finishes(buf) <==> Complete(buf)
  {
    if Complete(buf) {
      TurnsProgress(buf, |buf|);
    } else {
      forall n: nat
        ensures Turns(buf, n) != |buf|
      {
        TurnsStuck(buf, n);
      }
    }
  }

  lemma {:induction false} TurnsAtEnd(buf: string, n: nat, m: nat)
    requires n <= m && Turns(buf, n) == |buf|
    ensures Turns(buf, m) == |buf|
    decreases m
  {
    if n < m {
      TurnsAtEnd(buf, n, m - 1);
    }
  }

  lemma NotIn(s: string, c: char, from: nat, i: nat)
    requires from <= i <= |s| && c !in s[from..i]
    ensures forall k :: from <= k < i ==> s[k] != c
  {
    assert forall k :: from <= k < i ==> s[k] == s[from..i][k - from];
  }

  lemma FindIs(s: string, c: char, from: nat, i: nat)
    requires from <= i <= |s| && c !in s[from..i] && (i < |s| ==> s[i] == c)
    ensures Find(s, c, from) == i
  {
    NotIn(s, c, from, i);
    NotIn(s, c, from, Find(s, c, from));
  }

  lemma AddLine(buf: string, lines: seq<string>, offset: nat, end: nat)
    requires offset <= end < |buf| && buf[end] == '\n' && '\n' !in buf[offset..end]
    requires Terminated(lines, '\n') == buf[..offset] && FreeOf(lines, '\n')
    ensures var lines' := lines + [buf[offset..end]];
            Terminated(lines', '\n') == buf[..end + 1] && FreeOf(lines', '\n')
  {
    TerminatedSnoc(lines, buf[offset..end], '\n');
    assert buf[..end + 1] == buf[..offset] + buf[offset..end] + "\n";
  }

  /** Scan until the end of the line, if there is one. */
  method ScanLine(buf: string, offset: nat) returns (line: string, i: nat)
    requires offset <= |buf|
    ensures offset + i == Find(buf, '\n', offset) && line == buf[offset..offset + i] && '\n' !in line
  {
    line, i := "", 0;
    while offset + i < |buf| && buf[offset + i] != '\n'
      invariant offset + i <= |buf|
      invariant line == buf[offset..offset + i] && '\n' !in line
    {
      line := line + [buf[offset + i]];
      i := i + 1;
    }
    FindIs(buf, '\n', offset, offset + i);
  }

  /** ProcessData, watched for the given number of turns of its outer loop: the
      lines handed to ProcessCommand and the bytes consumed by then. */
  method ProcessData(buf: string, turns: nat) returns (lines: seq<string>, offset: nat)
    ensures offset == Turns(buf, turns)
    ensures Terminated(lines, '\n') == buf[..offset] && FreeOf(lines, '\n')
    ensures Complete(buf) && turns >= |buf| ==> offset == |buf|
  {
    lines, offset := [], 0;
    var n := 0;
    while offset < |buf| && n < turns
      invariant n <= turns && offset == Turns(buf, n)
      invariant Terminated(lines, '\n') == buf[..offset] && FreeOf(lines, '\n')
      decreases turns - n
    {
      var line, i := ScanLine(buf, offset);
      if offset + i < |buf| {
        AddLine(buf, lines, offset, offset + i);
        lines := lines + [line];
        offset := offset + (i + 1);
      }
      n := n + 1;
    }
    if offset == |buf| {
      TurnsAtEnd(buf, n, turns);
    } else if Complete(buf) {
      TurnsProgress(buf, turns);
    }
  }

  // ------------------------------------------------------------------- words

  predicate OccursAt(s: string, t: string, i: nat) { i + |t| <= |s| && s[i..i + |t|] == t }

  /** No part contains t. */
  ghost predicate Without(parts: seq<string>, t: string) {
    forall p, k: nat :: p in parts ==> !OccursAt(p, t, k)
  }

  /** string::find, with one more than the length for npos. The empty string is
      found everywhere, at the end too. */
  function FindString(s: string, t: string, from: nat): (i: nat)
    requires from <= |s| + 1
    ensures from <= i <= |s| + 1
    ensures i <= |s| ==> OccursAt(s, t, i)
    ensures forall k: nat :: from <= k < i ==> !OccursAt(s, t, k)
    decreases |s| + 1 - from
  {
    if from == |s| + 1 || OccursAt(s, t, from) then from else FindString(s, t, from + 1)
  }

  /** Just behind the first character of the last occurrence of t that starts
      before n, or 0. */
  function LastCut(s: string, t: string, n: nat): (k: nat)
    requires n <= |s|
    ensures k <= n
  {
    if n == 0 || OccursAt(s, t, n - 1) then n else LastCut(s, t, n - 1)
  }

  lemma {:induction false} LastCutIs(s: string, t: string, k: nat, n: nat)
    requires k <= n <= |s| && (k > 0 ==> OccursAt(s, t, k - 1))
    requires forall j: nat :: k <= j < n ==> !OccursAt(s, t, j)
    ensures LastCut(s, t, n) == k
    decreases n
  {
    if k < n {
      LastCutIs(s, t, k, n - 1);
    }
  }

  lemma SliceOfSlice(s: string, begin: nat, end: nat, i: nat, j: nat)
    requires begin <= end <= |s| && i <= j <= end - begin
    ensures s[begin..end][i..j] == s[begin + i..begin + j]
  {
    var a, b := s[begin..end][i..j], s[begin + i..begin + j];
    assert forall k :: 0 <= k < j - i ==> a[k] == s[begin..end][i + k] == s[begin + i + k] == b[k];
  }

  lemma PieceIsFree(s: string, t: string, begin: nat, end: nat)
    requires begin <= end <= |s| && t != ""
    requires forall k: nat :: begin <= k < end ==> !OccursAt(s, t, k)
    ensures forall k: nat :: !OccursAt(s[begin..end], t, k)
  {
    var p := s[begin..end];
    forall k: nat
      ensures !OccursAt(p, t, k)
    {
      if k + |t| <= |p| {
        SliceOfSlice(s, begin, end, k, k + |t|);
        assert !OccursAt(s, t, begin + k);
      }
    }
  }

  lemma WithoutSnoc(parts: seq<string>, p: string, t: string)
    requires Without(parts, t) && forall k: nat :: !OccursAt(p, t, k)
    ensures Without(parts + [p], t)
  {
  }

  lemma FreeOfOne(parts: seq<string>, t: string)
    requires Without(parts, t) && |t| == 1
    ensures FreeOf(parts, t[0])
  {
    forall p, k: nat | p in parts && k < |p|
      ensures p[k] != t[0]
    {
      assert !OccursAt(p, t, k);
      assert p[k..k + 1] == [p[k]];
    }
  }

  /** The words found in the first n characters. */
  ghost predicate Words(ret: seq<string>, s: string, split: string, n: nat)
    requires split != "" && n <= |s|
  {
    Terminated(ret, split[0]) == s[..n] && Without(ret, split)
  }

  lemma AddWord(s: string, split: string, ret: seq<string>, begin: nat, end: nat)
    requires split != "" && begin <= end < |s| && Words(ret, s, split, begin)
    requires OccursAt(s, split, end) && forall k: nat :: begin <= k < end ==> !OccursAt(s, split, k)
    ensures Words(ret + [s[begin..end]], s, split, end + 1)
  {
    var sub := s[begin..end];
    PieceIsFree(s, split, begin, end);
    WithoutSnoc(ret, sub, split);
    TerminatedSnoc(ret, sub, split[0]);
    assert s[end] == s[end..end + |split|][0];
    assert s[..end + 1] == s[..begin] + sub + [s[end]];
  }

  lemma LastWord(s: string, split: string, ret: seq<string>, begin: nat)
    requires split != "" && begin <= |s| && Words(ret, s, split, begin)
    requires forall k: nat :: begin <= k < |s| ==> !OccursAt(s, split, k)
    ensures var ret' := ret + [s[begin..]];
            Terminated(ret', split[0]) == s + [split[0]] && Without(ret', split)
  {
    var sub := s[begin..];
    assert sub == s[begin..|s|];
    PieceIsFree(s, split, begin, |s|);
    WithoutSnoc(ret, sub, split);
    TerminatedSnoc(ret, sub, split[0]);
    assert s[..begin] + sub == s;
  }

  function Blanks(n: nat): seq<string> { seq(n, _ => "") }

  /** The words found before the search goes on at begin. */
  ghost predicate Scanned(words: seq<string>, s: string, split: string, begin: nat) {
    if split == "" then words == Blanks(begin)
    else begin <= |s| && Words(words, s, split, begin) && (begin > 0 ==> OccursAt(s, split, begin - 1))
  }

  lemma ScanOn(words: seq<string>, s: string, split: string, begin: nat)
    requires begin <= |s| && Scanned(words, s, split, begin) && FindString(s, split, begin) <= |s|
    ensures var end := FindString(s, split, begin);
            Scanned(words + [s[begin..end]], s, split, end + 1)
  {
    if split != "" {
      AddWord(s, split, words, begin, FindString(s, split, begin));
    }
  }

  lemma ScanEnds(words: seq<string>, s: string, split: string, begin: nat)
    requires begin <= |s| + 1 && Scanned(words, s, split, begin) && FindString(s, split, begin) > |s|
    ensures split == "" ==> begin == |s| + 1
    ensures split != "" ==>
      && begin == LastCut(s, split, |s|) && Words(words, s, split, begin)
      && Terminated(words + [s[begin..]], split[0]) == s + [split[0]] && Without(words + [s[begin..]], split)
  {
    if split == "" {
      assert begin <= |s| ==> OccursAt(s, split, begin);
    } else {
      LastCutIs(s, split, begin, |s|);
      LastWord(s, split, words, begin);
    }
  }

  /** The search for the separator goes on one character behind the start of the
      last one found, so of a longer separator only the first character is taken
      out. What follows the last separator is a word only if partial words are
      asked for and there is something. With an empty separator the search runs
      past the end of the text, and asking for the partial word throws. */
  method StrTokenize(s: string, split: string, partial: bool) returns (ret: Option<seq<string>>)
    ensures ret.None? <==> split == "" && s != "" && partial
    ensures ret.Some? && split != "" ==> Without(ret.value, split)
    ensures ret.Some? && split != "" ==>
              var cut := LastCut(s, split, |s|);
              Terminated(ret.value, split[0]) == if partial && cut != |s| then s + [split[0]] else s[..cut]
    ensures ret.Some? && split == "" ==> ret.value == if s == "" then [] else Blanks(|s| + 1)
  {
    var begin := 0;
    var end := FindString(s, split, 0);
    var words: seq<string> := [];
    if |s| == 0 {
      return Some(words);
    }
    while end <= |s|
      invariant begin <= |s| + 1 && end == FindString(s, split, begin)
      invariant Scanned(words, s, split, begin)
      decreases |s| + 1 - begin
    {
      var sub := s[begin..end];
      ScanOn(words, s, split, begin);
      begin := end + 1;
      end := FindString(s, split, begin);
      words := words + [sub];
    }
    ScanEnds(words, s, split, begin);
    if partial && begin != |s| {
      if begin > |s| {
        return None;
      }
      words := words + [s[begin..]];
    }
    ret := Some(words);
  }

  /** With a separator of one character, as the daemon uses, words are free of
      it, and one separator at the very end is swallowed. */
  lemma OneSeparator(s: string, ret: seq<string>, sep: char)
    requires Without(ret, [sep])
    ensures FreeOf(ret, sep)
    ensures LastCut(s, [sep], |s|) == |s| <==> s == "" || s[|s| - 1] == sep
  {
    FreeOfOne(ret, [sep]);
  }
}
