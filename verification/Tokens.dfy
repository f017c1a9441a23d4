/** The tokenizer of proto_text.c: a command line cut at its spaces, in place and
in batches. */
module Tokens {
  import opened Basics

  /** The words of a line, when `word` is what has been read of the current one. */
  function Words(line: string, word: string): seq<string> {
    if line == "" then (if word == "" then [] else [word])
    else if line[0] == ' ' then (if word == "" then [] else [word]) + Words(line[1..], "")
    else Words(line[1..], word + [line[0]])
  }

  ghost predicate AreWords(words: seq<string>) {
    forall i :: 0 <= i < |words| ==> words[i] != "" && ' ' !in words[i]
  }

  function Join(words: seq<string>): string {
    if words == [] then "" else words[0] + " " + Join(words[1..])
  }

  lemma {:induction false} ReadWord(w: string, rest: string, word: string)
    requires ' ' !in w
    ensures Words(w + rest, word) == Words(rest, word + w)
  {
    if w == "" {
      assert w + rest == rest && word + w == word;
    } else {
      assert (w + rest)[1..] == w[1..] + rest && (word + [w[0]]) + w[1..] == word + w;
      assert w[0] in w;
      ReadWord(w[1..], rest, word + [w[0]]);
    }
  }

  /** The words of a line are nonempty, without spaces, and those it was joined from. */
  lemma {:induction false} WordsOfJoined(words: seq<string>)
    requires AreWords(words)
    ensures Words(Join(words), "") == words
  {
    if words != [] {
      var w, rest := words[0], Join(words[1..]);
      assert w + " " + rest == w + (" " + rest) && "" + w == w && (" " + rest)[1..] == rest;
      ReadWord(w, " " + rest, "");
      WordsOfJoined(words[1..]);
      assert Words(" " + rest, w) == [w] + Words(rest, "");
    }
  }

  lemma {:induction false} WordsAreWords(line: string, word: string)
    requires ' ' !in word
    ensures AreWords(Words(line, word))
  {
    if line != "" {
      WordsAreWords(line[1..], if line[0] == ' ' then "" else word + [line[0]]);
    }
  }

  /** token_t. */
  datatype Token = Token(value: nat, length: nat)

  function Text(d: string, t: Token): string
    requires t.value + t.length <= |d|
  {
    d[t.value..t.value + t.length]
  }

  ghost predicate Inside(d: string, tokens: seq<Token>) {
    forall i :: 0 <= i < |tokens| ==> tokens[i].length > 0 && tokens[i].value + tokens[i].length <= |d|
  }

  /** Every token ends in a terminator. */
  ghost predicate Terminated(d: string, tokens: seq<Token>) {
    forall i :: 0 <= i < |tokens| ==>
      tokens[i].value + tokens[i].length < |d| && d[tokens[i].value + tokens[i].length] == '\0'
  }

  function Texts(d: string, tokens: seq<Token>): seq<string>
    requires Inside(d, tokens)
  {
    seq(|tokens|, i requires 0 <= i < |tokens| => Text(d, tokens[i]))
  }

  /** Overwriting a character that is in no token changes no token. */
  lemma TextsStay(d: string, d': string, tokens: seq<Token>, e: nat)
    requires Inside(d, tokens) && |d'| == |d| && forall k :: 0 <= k < |d| && k != e ==> d'[k] == d[k]
    requires forall i :: 0 <= i < |tokens| ==> tokens[i].value + tokens[i].length <= e || e < tokens[i].value
    ensures Inside(d', tokens) && Texts(d', tokens) == Texts(d, tokens)
  {
    forall i | 0 <= i < |tokens| ensures Text(d', tokens[i]) == Text(d, tokens[i]) {}
  }

  lemma TextsSnoc(d: string, tokens: seq<Token>, t: Token)
    requires Inside(d, tokens) && t.length > 0 && t.value + t.length <= |d|
    ensures Inside(d, tokens + [t]) && Texts(d, tokens + [t]) == Texts(d, tokens) + [Text(d, t)]
  {}

  lemma TerminatedSnoc(d: string, tokens: seq<Token>, t: Token)
    requires Terminated(d, tokens) && t.value + t.length < |d| && d[t.value + t.length] == '\0'
    ensures Terminated(d, tokens + [t])
  {}

  /** strlen. */
  method Strlen(buf: array<char>, start: nat, ghost line: string) returns (len: nat)
    requires start + |line| < buf.Length && buf[start..start + |line|] == line && '\0' !in line
    requires buf[start + |line|] == '\0'
    ensures len == |line|
  {
    len := 0;
    while buf[start + len] != '\0'
      invariant len <= |line|
      decreases |line| - len
    {
      len := len + 1;
    }
  }

  /** Where the scan stands: i characters are read, the current word starts at s,
  and the words found and those to come are together the words of the line. */
  ghost predicate Scanned(d: string, start: nat, line: string, i: nat, s: nat, tokens: seq<Token>) {
    && i <= |line| && start <= s <= start + i && start + |line| < |d| && d[start + |line|] == '\0'
    && Inside(d, tokens) && Terminated(d, tokens) && (forall j :: 0 <= j < |tokens| ==>
        tokens[j].value + tokens[j].length < s)
    && (forall k :: i <= k < |line| ==> d[start + k] == line[k])
    && Texts(d, tokens) + Words(line[i..], d[s..start + i]) == Words(line, "")
  }

  lemma ScanStart(d: string, start: nat, line: string)
    requires start + |line| < |d| && d[start..start + |line|] == line && d[start + |line|] == '\0'
    ensures Scanned(d, start, line, 0, start, [])
  {
    assert Texts(d, []) == [] && line[0..] == line && d[start..start + 0] == "";
    assert [] + Words(line, "") == Words(line, "");
    forall k | 0 <= k < |line| ensures d[start + k] == line[k] {
      assert d[start..start + |line|][k] == d[start + k];
    }
  }

  /** A character of a word, or a space after a space. */
  lemma ScanOn(d: string, start: nat, line: string, i: nat, s: nat, tokens: seq<Token>)
    requires Scanned(d, start, line, i, s, tokens) && i < |line|
    ensures d[start + i] == line[i]
    ensures line[i] != ' ' ==> Scanned(d, start, line, i + 1, s, tokens)
    ensures line[i] == ' ' && s == start + i ==> Scanned(d, start, line, i + 1, s + 1, tokens)
  {
    WordsStep(line, i, d[s..start + i]);
    hide Words, Texts, Inside, Terminated;
    if line[i] != ' ' {
      assert d[s..start + i + 1] == d[s..start + i] + [line[i]];
    } else if s == start + i {
      assert d[s..start + i] == "" && d[s + 1..start + i + 1] == "";
      assert [] + Words(line[i + 1..], "") == Words(line[i + 1..], "");
    }
  }

  /** The space after a word: the word is a token, and the space is overwritten. */
  lemma ScanWord(d: string, start: nat, line: string, i: nat, s: nat, tokens: seq<Token>)
    requires Scanned(d, start, line, i, s, tokens) && i < |line| && line[i] == ' ' && s < start + i
    ensures Scanned(d[start + i := '\0'], start, line, i + 1, start + i + 1, tokens + [Token(s, start + i - s)])
  {
    WordsStep(line, i, d[s..start + i]);
    var t, e := Token(s, start + i - s), start + i;
    var d' := d[e := '\0'];
    TextsSnoc(d, tokens, t);
    TextsStay(d, d', tokens + [t], e);
    hide Words, Texts;
    assert d'[e + 1..e + 1] == "";
    Regroup(Texts(d, tokens), d[s..e], Words(line[i + 1..], ""));
  }

  lemma LastToken(d: string, tokens: seq<Token>, t: Token, words: seq<string>)
    requires Inside(d, tokens) && Terminated(d, tokens)
    requires t.length > 0 && t.value + t.length < |d| && d[t.value + t.length] == '\0'
    requires Texts(d, tokens) + [Text(d, t)] == words
    ensures Inside(d, tokens + [t]) && Terminated(d, tokens + [t]) && Texts(d, tokens + [t]) == words
  {
    hide Inside, Terminated, Texts;
    TextsSnoc(d, tokens, t);
    TerminatedSnoc(d, tokens, t);
  }

  /** The end of the line: what is left is the last word. */
  lemma ScanEnd(d: string, start: nat, line: string, s: nat, tokens: seq<Token>)
    requires Scanned(d, start, line, |line|, s, tokens)
    ensures s == start + |line| ==> Texts(d, tokens) == Words(line, "")
    ensures s < start + |line| ==> var all := tokens + [Token(s, start + |line| - s)];
      Inside(d, all) && Terminated(d, all) && Texts(d, all) == Words(line, "")
  {
    hide Words, Texts, Inside, Terminated;
    var word := d[s..start + |line|];
    Exhausted(line, word);
    if s == start + |line| {
      assert word == "";
      assert Texts(d, tokens) + [] == Texts(d, tokens);
    } else {
      assert |word| > 0 && Text(d, Token(s, start + |line| - s)) == word;
      LastToken(d, tokens, Token(s, start + |line| - s), Words(line, ""));
    }
  }

  /** The scanning loop of tokenize_command: it ends with the line, or after the
  space behind the last word of a full batch. */
  method Scan(buf: array<char>, start: nat, len: nat, max: nat, ghost line: string)
    returns (tokens: seq<Token>, s: nat, i: nat)
    requires max > 1 && len == |line| && Scanned(buf[..], start, line, 0, start, [])
    modifies buf
    ensures Scanned(buf[..], start, line, i, s, tokens)
    ensures (i == len && |tokens| < max - 1) || (0 < i && s == start + i && |tokens| == max - 1)
    ensures forall k :: 0 <= k < buf.Length && !(start <= k < start + len) ==> buf[k] == old(buf[k])
  {
    hide Words, Texts, Inside, Terminated;
    tokens := [];
    var e := start;
    s, i := start, 0;
    while i < len
      invariant i <= len && e == start + i && |tokens| < max - 1 && Scanned(buf[..], start, line, i, s, tokens)
      invariant forall k :: 0 <= k < buf.Length && !(start <= k < start + len) ==> buf[k] == old(buf[k])
    {
      ghost var d := buf[..];
      ScanOn(d, start, line, i, s, tokens);
      if buf[e] == ' ' {
        if s != e {
          ScanWord(d, start, line, i, s, tokens);
          tokens := tokens + [Token(s, e - s)];
          buf[e] := '\0';
          assert buf[..] == d[e := '\0'];
          if |tokens| == max - 1 {
            e := e + 1;
            s := e;
            i := i + 1;
            break;
          }
        }
        s := e + 1;
      }
      e := e + 1;
      i := i + 1;
    }
  }

  /** tokenize_command without its closing token: at most max - 1 words, each in
  place, and where to go on unless the line is used up. The words found and the
  words of the rest are together the words of the line. */
  method Tokenize(buf: array<char>, start: nat, max: nat, ghost line: string)
    returns (tokens: seq<Token>, next: Option<nat>)
    requires max > 1 && start + |line| < buf.Length && buf[start..start + |line|] == line && '\0' !in line
    requires buf[start + |line|] == '\0'
    modifies buf
    ensures |tokens| <= max - 1 && Inside(buf[..], tokens) && Terminated(buf[..], tokens)
    ensures next.Some? ==> |tokens| == max - 1
    ensures next.Some? ==>
      start < next.value < start + |line| && buf[next.value..start + |line|] == line[next.value - start..]
    ensures Words(line, "") ==
      Texts(buf[..], tokens) + (if next.Some? then Words(line[next.value - start..], "") else [])
    ensures buf[start + |line|] == '\0'
    ensures forall k :: 0 <= k < buf.Length && !(start <= k < start + |line|) ==> buf[k] == old(buf[k])
  {
    hide Words, Texts, Inside, Terminated;
    var len := Strlen(buf, start, line);
    assert buf[..][start..start + |line|] == buf[start..start + |line|];
    ScanStart(buf[..], start, line);
    var s, i;
    tokens, s, i := Scan(buf, start, len, max, line);
    var e := start + i;
    if s != e {
      ScanEnd(buf[..], start, line, s, tokens);
      tokens := tokens + [Token(s, e - s)];
    }
    Stopped(buf[..], start, line, i, s, tokens);
    next := if buf[e] == '\0' then None else Some(e);
  }

  /** Where a scan that ended between words goes on. */
  lemma Stopped(d: string, start: nat, line: string, i: nat, s: nat, tokens: seq<Token>)
    requires start + |line| < |d| && i <= |line| && '\0' !in line
    requires (i == |line| && d[start + i] == '\0' && Inside(d, tokens) && Terminated(d, tokens) &&
        Texts(d, tokens) == Words(line, "")) ||
      (s == start + i && Scanned(d, start, line, i, s, tokens))
    ensures Inside(d, tokens) && Terminated(d, tokens) && d[start + |line|] == '\0'
    ensures (d[start + i] == '\0' <==> i == |line|)
    ensures d[start + i] == '\0' ==> Texts(d, tokens) + [] == Words(line, "")
    ensures i < |line| ==> Texts(d, tokens) + Words(line[i..], "") == Words(line, "")
    ensures i < |line| ==> d[start + i..start + |line|] == line[i..]
  {
    hide Words, Texts, Inside, Terminated;
    if i < |line| {
      assert line[i] in line;
      assert d[s..start + i] == "";
    } else if s == start + i && Scanned(d, start, line, i, s, tokens) {
      ScanEnd(d, start, line, s, tokens);
    }
  }

  lemma WordsStep(line: string, i: nat, word: string)
    requires i < |line|
    ensures Words(line[i..], word) ==
      if line[i] == ' ' then (if word == "" then [] else [word]) + Words(line[i + 1..], "")
      else Words(line[i + 1..], word + [line[i]])
  {
    assert line[i..][1..] == line[i + 1..];
  }

  lemma Regroup(a: seq<string>, word: string, b: seq<string>)
    ensures a + ([word] + b) == (a + [word]) + b
  {}

  lemma Exhausted(line: string, word: string)
    ensures Words(line[|line|..], word) == if word == "" then [] else [word]
  {}

  /** The loop of process_get_command: batch after batch, until the line is used
  up. Together the batches are the words of the line. */
  method AllBatches(buf: array<char>, max: nat, line: string) returns (words: seq<string>, batches: nat)
    requires max > 1 && |line| < buf.Length && buf[..|line|] == line && '\0' !in line && buf[|line|] == '\0'
    modifies buf
    ensures words == Words(line, "") && |words| <= batches * (max - 1)
  {
    hide Words, Texts, Inside, Terminated;
    words, batches := [], 0;
    var start := 0;
    ghost var rest := line;
    var more := true;
    assert buf[0..|line|] == line && [] + Words(line, "") == Words(line, "");
    while more
      invariant 0 <= start <= |line| && (more ==> rest == line[start..])
      invariant more ==> buf[start..|line|] == rest && buf[|line|] == '\0'
      invariant words + (if more then Words(rest, "") else []) == Words(line, "")
      invariant |words| <= batches * (max - 1)
      decreases |line| - start + (if more then 1 else 0)
    {
      NoNul(line, start);
      assert buf[start..start + |rest|] == rest;
      var tokens, next := Tokenize(buf, start, max, rest);
      ghost var found := Texts(buf[..], tokens);
      var batch := Collect(buf, tokens);
      batches := batches + 1;
      assert batches * (max - 1) == (batches - 1) * (max - 1) + (max - 1);
      match next
      case None =>
        assert words + (batch + []) == (words + batch) + [];
        words := words + batch;
        more := false;
      case Some(e) =>
        ghost var rest' := rest[e - start..];
        assert words + (batch + Words(rest', "")) == (words + batch) + Words(rest', "");
        words := words + batch;
        assert rest' == line[e..];
        rest := rest';
        start := e;
    }
  }

  lemma NoNul(line: string, start: nat)
    requires '\0' !in line && start <= |line|
    ensures '\0' !in line[start..]
  {}

  /** The words of one batch. */
  method Collect(buf: array<char>, tokens: seq<Token>) returns (batch: seq<string>)
    requires Inside(buf[..], tokens)
    ensures batch == Texts(buf[..], tokens) && |batch| == |tokens|
  {
    batch := [];
    var i := 0;
    while i < |tokens|
      invariant 0 <= i <= |tokens| && |batch| == i
      invariant forall k :: 0 <= k < i ==> batch[k] == Text(buf[..], tokens[k])
    {
      batch := batch + [buf[tokens[i].value..tokens[i].value + tokens[i].length]];
      assert batch[i] == Text(buf[..], tokens[i]);
      i := i + 1;
    }
  }
}
