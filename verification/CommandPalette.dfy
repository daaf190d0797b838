/** The command palette: matching query tokens with the words of a title, and the list of recent actions. */
module CommandPalette {

  // ---------- the words of a title ----------

  predicate IsAsciiAlphanumeric(c: char) {
    ('0' <= c <= '9') || ('A' <= c <= 'Z') || ('a' <= c <= 'z')
  }

  /** The pieces between the separators of a title; adjacent separators have an empty piece between them. */
  function Pieces(title: string): (pieces: seq<string>)
    ensures pieces != []
  {
    if title == [] then [""]
    else
      var rest := Pieces(title[1..]);
      if IsAsciiAlphanumeric(title[0]) then [[title[0]] + rest[0]] + rest[1..] else [""] + rest
  }

  function NonEmpty(pieces: seq<string>): seq<string> {
    if pieces == [] then []
    else if pieces[0] == "" then NonEmpty(pieces[1..])
    else [pieces[0]] + NonEmpty(pieces[1..])
  }

  function Words(title: string): seq<string> {
    NonEmpty(Pieces(title))
  }

  predicate AlphanumericAt(title: string, i: int) {
    0 <= i < |title| && IsAsciiAlphanumeric(title[i])
  }

  /** The word that starts at `i`: everything up to the next separator. */
  function WordFrom(title: string, i: nat): string
    requires i <= |title|
    decreases |title| - i
  {
    if AlphanumericAt(title, i) then [title[i]] + WordFrom(title, i + 1) else ""
  }

  /** The words whose first character is at `i` or later, read off the title itself. */
  function RunsFrom(title: string, i: nat): seq<string>
    requires i <= |title|
    decreases |title| - i
  {
    if i == |title| then []
    else (if AlphanumericAt(title, i) && !AlphanumericAt(title, i - 1) then [WordFrom(title, i)] else [])
         + RunsFrom(title, i + 1)
  }

  lemma {:induction false} PiecesFrom(title: string, i: nat)
    requires i <= |title|
    ensures Pieces(title[i..])[0] == WordFrom(title, i)
    ensures NonEmpty(Pieces(title[i..])[1..])
         == if AlphanumericAt(title, i) && !AlphanumericAt(title, i - 1) then RunsFrom(title, i)[1..]
            else RunsFrom(title, i)
    decreases |title| - i
  {
    if i < |title| {
      PiecesFrom(title, i + 1);
      assert title[i..][1..] == title[i + 1..];
      PiecesSplit(title, i);
    }
  }

  lemma PiecesSplit(title: string, i: nat)
    requires i < |title|
    ensures var pieces, rest := Pieces(title[i..]), Pieces(title[i + 1..]);
      pieces[1..] == if AlphanumericAt(title, i) then rest[1..] else rest
  {
    assert title[i..][1..] == title[i + 1..];
  }

  /** The words of a title are its maximal runs of letters and digits, in order. */
  lemma WordsAreMaximalRuns(title: string)
    ensures Words(title) == RunsFrom(title, 0)
  {
    PiecesFrom(title, 0);
    assert title[0..] == title;
  }

  // ---------- matching ----------

  /** Every token is a prefix of a word of its own, and the words appear in the order of the tokens. */
  ghost predicate Assigns(tokens: seq<string>, words: seq<string>, at: seq<nat>) {
    && |at| == |tokens|
    && (forall i :: 0 <= i < |at| ==> at[i] < |words| && tokens[i] <= words[at[i]])
    && (forall i, j :: 0 <= i < j < |at| ==> at[i] < at[j])
  }

  ghost predicate Assignable(tokens: seq<string>, words: seq<string>) {
    exists at :: Assigns(tokens, words, at)
  }

  lemma NothingToAssign(words: seq<string>)
    ensures Assignable([], words)
  {
    assert Assigns([], words, []);
  }

  /** A word its first token does not fit can be passed over. */
  lemma SkipWord(tokens: seq<string>, words: seq<string>)
    requires tokens != [] && words != [] && !(tokens[0] <= words[0])
    ensures Assignable(tokens, words) <==> Assignable(tokens, words[1..])
  {
    if at :| Assigns(tokens, words, at) {
      assert at[0] != 0;
      assert Assigns(tokens, words[1..], Down(at));
    }
    if at :| Assigns(tokens, words[1..], at) {
      assert Assigns(tokens, words, Up(at));
    }
  }

  /** A word its first token fits can always be given to that token. */
  lemma TakeWord(tokens: seq<string>, words: seq<string>)
    requires tokens != [] && words != [] && tokens[0] <= words[0]
    ensures Assignable(tokens, words) <==> Assignable(tokens[1..], words[1..])
  {
    if at :| Assigns(tokens, words, at) {
      TakeForward(tokens, words, at);
    }
    if at :| Assigns(tokens[1..], words[1..], at) {
      TakeBack(tokens, words, at);
    }
  }

  lemma TakeForward(tokens: seq<string>, words: seq<string>, at: seq<nat>)
    requires tokens != [] && words != [] && Assigns(tokens, words, at)
    ensures Assignable(tokens[1..], words[1..])
  {
    var rest := at[1..];
    assert forall i :: 0 <= i < |rest| ==> at[0] < at[i + 1] == rest[i];
    var down := Down(rest);
    forall i | 0 <= i < |down|
      ensures down[i] < |words[1..]| && tokens[1..][i] <= words[1..][down[i]]
    {
      assert at[i + 1] == down[i] + 1;
    }
    assert Assigns(tokens[1..], words[1..], down);
  }

  lemma TakeBack(tokens: seq<string>, words: seq<string>, at: seq<nat>)
    requires tokens != [] && words != [] && tokens[0] <= words[0] && Assigns(tokens[1..], words[1..], at)
    ensures Assignable(tokens, words)
  {
    var up := Up(at);
    forall i | 0 <= i < |up|
      ensures up[i] < |words| && tokens[i + 1] <= words[up[i]]
    {
      assert at[i] < |words[1..]| && tokens[1..][i] <= words[1..][at[i]];
    }
    Prepended(tokens, words, up);
  }

  lemma Prepended(tokens: seq<string>, words: seq<string>, up: seq<nat>)
    requires tokens != [] && words != [] && tokens[0] <= words[0] && |up| == |tokens| - 1
    requires forall i :: 0 <= i < |up| ==> 0 < up[i] < |words| && tokens[i + 1] <= words[up[i]]
    requires forall i, j :: 0 <= i < j < |up| ==> up[i] < up[j]
    ensures Assignable(tokens, words)
  {
    var whole := [0] + up;
    assert forall i :: 0 < i < |whole| ==> whole[i] == up[i - 1] && tokens[i] == tokens[i - 1 + 1];
    assert Assigns(tokens, words, whole);
  }

  function Up(at: seq<nat>): (r: seq<nat>)
    ensures |r| == |at| && forall i :: 0 <= i < |at| ==> r[i] == at[i] + 1
  {
    seq(|at|, i requires 0 <= i < |at| => at[i] + 1)
  }

  function Down(at: seq<nat>): (r: seq<nat>)
    requires forall i :: 0 <= i < |at| ==> at[i] > 0
    ensures |r| == |at| && forall i :: 0 <= i < |at| ==> r[i] == at[i] - 1
  {
    seq(|at|, i requires 0 <= i < |at| => at[i] - 1)
  }

  /** One pass over the words decides whether an assignment exists. */
  method TitleWordPrefixMatch(title: string, tokens: seq<string>) returns (matches: bool)
    ensures matches <==> Assignable(tokens, RunsFrom(title, 0))
  {
    hide RunsFrom, Assignable;
    if tokens == [] {
      NothingToAssign(RunsFrom(title, 0));
      return true;
    }
    WordsAreMaximalRuns(title);
    var words := Words(title);
    if words == [] {
      NoWordsLeft(tokens);
      return false;
    }
    var wordIndex, k := 0, 0;
    while k < |tokens|
      invariant 0 <= k <= |tokens| && 0 <= wordIndex <= |words|
      invariant Assignable(tokens, words) <==> Assignable(tokens[k..], words[wordIndex..])
    {
      var matched;
      matched, wordIndex := NextMatch(tokens[k..], words, wordIndex);
      if !matched {
        return false;
      }
      assert tokens[k..][1..] == tokens[k + 1..];
      k := k + 1;
    }
    NothingToAssign(words[wordIndex..]);
    assert tokens[k..] == [];
    return true;
  }

  /** Advances past the words up to and including the first one that starts with the first token. */
  method NextMatch(tokens: seq<string>, words: seq<string>, start: nat) returns (matched: bool, next: nat)
    requires tokens != [] && start <= |words|
    ensures start <= next <= |words|
    ensures matched ==> start < next && tokens[0] <= words[next - 1]
    ensures forall i :: start <= i < (if matched then next - 1 else |words|) ==> !(tokens[0] <= words[i])
    ensures matched ==> (Assignable(tokens, words[start..]) <==> Assignable(tokens[1..], words[next..]))
    ensures !matched ==> !Assignable(tokens, words[start..])
  {
    hide Assignable;
    next, matched := start, false;
    while next < |words|
      invariant start <= next <= |words| && !matched
      invariant forall i :: start <= i < next ==> !(tokens[0] <= words[i])
      invariant Assignable(tokens, words[start..]) <==> Assignable(tokens, words[next..])
    {
      assert words[next..][1..] == words[next + 1..];
      next := next + 1;
      if tokens[0] <= words[next - 1] {
        TakeWord(tokens, words[next - 1..]);
        return true, next;
      }
      SkipWord(tokens, words[next - 1..]);
    }
    assert words[next..] == [];
    NoWordsLeft(tokens);
  }

  lemma NoWordsLeft(tokens: seq<string>)
    requires tokens != []
    ensures !Assignable(tokens, [])
  {
    forall at
      ensures !Assigns(tokens, [], at)
    {
      if |at| == |tokens| {
        assert at[0] >= 0;
      }
    }
  }

  // ---------- recent actions ----------

  const RECENT_LIMIT := 20

  function Without(keys: seq<string>, key: string): seq<string> {
    if keys == [] then []
    else if keys[0] == key then Without(keys[1..], key)
    else [keys[0]] + Without(keys[1..], key)
  }

  function Truncated(keys: seq<string>): seq<string> {
    if |keys| <= RECENT_LIMIT then keys else keys[..RECENT_LIMIT]
  }

  /** The list kept after a history of actions, oldest first. */
  function Recent(history: seq<string>): seq<string> {
    if history == [] then []
    else
      var n := |history| - 1;
      Truncated([history[n]] + Without(Recent(history[..n]), history[n]))
  }

  /** Every action ever taken, most recently used first, with nothing cut off. */
  function MostRecentlyUsed(history: seq<string>): seq<string> {
    if history == [] then []
    else
      var n := |history| - 1;
      [history[n]] + Without(MostRecentlyUsed(history[..n]), history[n])
  }

  class Palette {
    var recentActions: seq<string>

    constructor ()
      ensures recentActions == Recent([])
    {
      recentActions := [];
    }

    /** The caller's `history` is what the palette has been told so far. */
    method RememberAction(key: string, ghost history: seq<string>)
      requires recentActions == Recent(history)
      modifies this
      ensures recentActions == Recent(history + [key])
    {
      assert (history + [key])[..|history|] == history;
      recentActions := Without(recentActions, key);
      recentActions := [key] + recentActions;
      if |recentActions| > RECENT_LIMIT {
        recentActions := recentActions[..RECENT_LIMIT];
      }
    }
  }

  /** The last time a key was used. */
  function LastUse(history: seq<string>, key: string): int {
    if history == [] then -1
    else if history[|history| - 1] == key then |history| - 1
    else LastUse(history[..|history| - 1], key)
  }

  lemma {:induction false} WithoutAppend(first: seq<string>, second: seq<string>, key: string)
    ensures Without(first + second, key) == Without(first, key) + Without(second, key)
  {
    if first == [] {
      assert first + second == second;
    } else {
      assert (first + second)[1..] == first[1..] + second;
      WithoutAppend(first[1..], second, key);
    }
  }

  lemma {:induction false} WithoutLength(keys: seq<string>, key: string)
    requires forall i, j :: 0 <= i < j < |keys| ==> keys[i] != keys[j]
    ensures |keys| - 1 <= |Without(keys, key)| <= |keys|
    ensures |Without(keys, key)| == |keys| <==> key !in keys
  {
    if keys != [] {
      WithoutLength(keys[1..], key);
      assert key in keys <==> keys[0] == key || key in keys[1..];
    }
  }

  /** Truncating before a key is brought to the front loses nothing that truncating afterwards would keep. */
  lemma TruncateCommutes(keys: seq<string>, key: string)
    requires forall i, j :: 0 <= i < j < |keys| ==> keys[i] != keys[j]
    ensures Truncated([key] + Without(Truncated(keys), key)) == Truncated([key] + Without(keys, key))
  {
    if |keys| > RECENT_LIMIT {
      var kept, cut := keys[..RECENT_LIMIT], keys[RECENT_LIMIT..];
      assert keys == kept + cut;
      WithoutAppend(kept, cut, key);
      WithoutLength(kept, key);
      var front, back := Without(kept, key), Without(cut, key);
      assert |front| >= RECENT_LIMIT - 1;
      assert ([key] + (front + back))[..RECENT_LIMIT] == ([key] + front)[..RECENT_LIMIT];
    }
  }

  predicate UsedLater(history: seq<string>, first: string, second: string) {
    LastUse(history, first) > LastUse(history, second)
  }

  ghost predicate NewestFirst(history: seq<string>, keys: seq<string>) {
    forall i, j :: 0 <= i < j < |keys| ==> UsedLater(history, keys[i], keys[j])
  }

  /** The keys of a history, each once, in the order of their last use. */
  ghost predicate OrderedByLastUse(history: seq<string>, keys: seq<string>) {
    && (forall key :: key in keys <==> key in history)
    && NewestFirst(history, keys)
  }

  lemma {:induction false} WithoutMembers(keys: seq<string>, key: string)
    ensures forall other :: other in Without(keys, key) <==> other in keys && other != key
  {
    if keys != [] {
      WithoutMembers(keys[1..], key);
      assert forall other :: other in keys <==> other == keys[0] || other in keys[1..];
    }
  }

  lemma {:induction false} WithoutKeepsOrder(history: seq<string>, keys: seq<string>, key: string)
    requires NewestFirst(history, keys)
    ensures NewestFirst(history, Without(keys, key))
  {
    hide UsedLater;
    if keys != [] {
      WithoutKeepsOrder(history, keys[1..], key);
      WithoutMembers(keys[1..], key);
      var rest := Without(keys[1..], key);
      var whole := [keys[0]] + rest;
      forall i, j | 0 <= i < j < |whole|
        ensures UsedLater(history, whole[i], whole[j])
      {
        assert whole[j] == rest[j - 1];
        assert rest[j - 1] in rest;
        assert rest[j - 1] in keys[1..];
        assert i > 0 ==> whole[i] == rest[i - 1];
      }
    }
  }

  lemma LastUseNext(history: seq<string>, key: string, other: string)
    ensures LastUse(history + [key], other) == if other == key then |history| else LastUse(history, other)
    ensures LastUse(history, other) < |history|
  {
    assert (history + [key])[..|history|] == history;
    LastUseBound(history, other);
  }

  lemma {:induction false} LastUseBound(history: seq<string>, key: string)
    ensures -1 <= LastUse(history, key) < |history|
    ensures LastUse(history, key) >= 0 ==> history[LastUse(history, key)] == key
    ensures forall i :: LastUse(history, key) < i < |history| ==> history[i] != key
  {
    if history != [] {
      LastUseBound(history[..|history| - 1], key);
    }
  }

  lemma BroughtToFront(earlier: seq<string>, keys: seq<string>, key: string)
    requires OrderedByLastUse(earlier, keys)
    ensures OrderedByLastUse(earlier + [key], [key] + Without(keys, key))
  {
    hide LastUse, Without;
    WithoutKeepsOrder(earlier, keys, key);
    WithoutMembers(keys, key);
    var history, rest := earlier + [key], Without(keys, key);
    LastUseNext(earlier, key, key);
    forall j | 0 <= j < |rest|
      ensures LastUse(history, rest[j]) == LastUse(earlier, rest[j]) < |earlier|
    {
      assert rest[j] in rest;
      LastUseNext(earlier, key, rest[j]);
    }
    var whole := [key] + rest;
    assert forall i :: 0 < i < |whole| ==> whole[i] == rest[i - 1];
  }

  /** The unbounded list holds each action ever taken once, ordered by its last use. */
  lemma {:induction false} MostRecentlyUsedIsOrdered(history: seq<string>)
    ensures OrderedByLastUse(history, MostRecentlyUsed(history))
    decreases |history|
  {
    hide LastUse;
    if history != [] {
      var n := |history| - 1;
      MostRecentlyUsedIsOrdered(history[..n]);
      BroughtToFront(history[..n], MostRecentlyUsed(history[..n]), history[n]);
      assert history == history[..n] + [history[n]];
    }
  }

  /** After any history the kept list is the first 20 entries of the unbounded one, without repetitions. */
  lemma {:induction false} RecentIsPrefix(history: seq<string>)
    ensures Recent(history) == Truncated(MostRecentlyUsed(history))
    ensures forall i, j :: 0 <= i < j < |Recent(history)| ==> Recent(history)[i] != Recent(history)[j]
    decreases |history|
  {
    MostRecentlyUsedIsOrdered(history);
    hide LastUse;
    if history != [] {
      var n := |history| - 1;
      RecentIsPrefix(history[..n]);
      MostRecentlyUsedIsOrdered(history[..n]);
      TruncateCommutes(MostRecentlyUsed(history[..n]), history[n]);
    }
  }
}
