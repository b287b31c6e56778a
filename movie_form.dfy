/** The movie form's duration normaliser: the typed text is split on ':'
    and brought to the "hh:mm:ss" shape the server's TimeSpan binding
    expects. */
module MovieForm {
  import opened Common

  /** JavaScript's String.prototype.split with a one-character separator:
      the pieces between separators, in order, with empty pieces kept. An
      empty string splits into one empty piece. */
  function Split(s: string, sep: char): (parts: seq<string>)
    ensures |parts| == multiset(s)[sep] + 1
    ensures forall i | 0 <= i < |parts| :: sep !in parts[i]
    decreases |s|
  {
    match IndexOf(s, sep)
    case None =>
      [s]
    case Some(i) =>
      assert s == s[..i] + [sep] + s[i + 1..];
      assert multiset(s) == multiset(s[..i]) + multiset{sep} + multiset(s[i + 1..]);
      [s[..i]] + Split(s[i + 1..], sep)
  }

  /** Array.prototype.join with a one-character separator. */
  function Join(parts: seq<string>, sep: char): string
    requires |parts| >= 1
  {
    if |parts| == 1 then parts[0] else parts[0] + [sep] + Join(parts[1..], sep)
  }

  /** Joining the pieces back gives the original text. */
  lemma {:induction false} JoinSplit(s: string, sep: char)
    ensures Join(Split(s, sep), sep) == s
    decreases |s|
  {
    match IndexOf(s, sep)
    case None =>
    case Some(i) =>
      JoinSplit(s[i + 1..], sep);
      assert s == s[..i] + [sep] + s[i + 1..];
  }

  /** Splitting a join of separator-free pieces gives the pieces back. */
  lemma {:induction false} SplitJoin(parts: seq<string>, sep: char)
    requires |parts| >= 1
    requires forall i | 0 <= i < |parts| :: sep !in parts[i]
    ensures Split(Join(parts, sep), sep) == parts
    decreases |parts|
  {
    if |parts| > 1 {
      var rest := Join(parts[1..], sep);
      var s := parts[0] + [sep] + rest;
      assert s[..|parts[0]|] == parts[0];
      assert s[|parts[0]| + 1..] == rest;
      assert sep !in s[..|parts[0]|];
      assert s[|parts[0]|] == sep;
      IndexOfFirst(s, sep, |parts[0]|);
      SplitJoin(parts[1..], sep);
    }
  }

  /** A position holding c with no c before it is what IndexOf finds. */
  lemma IndexOfFirst(s: string, c: char, i: nat)
    requires i < |s| && s[i] == c && c !in s[..i]
    ensures IndexOf(s, c) == Some(i)
  {
    assert c in s by { assert s[i] == c; }
  }

  /** formatDuration: two pieces ("mm:ss") get ":00" appended, three pieces
      are kept as typed, anything else becomes "00:00:00". */
  function FormatDuration(duration: string): string
  {
    var parts := Split(duration, ':');
    if |parts| == 2 then parts[0] + ":" + parts[1] + ":00"
    else if |parts| == 3 then duration
    else "00:00:00"
  }

  /** One colon: the text with ":00" appended. */
  lemma OneColonGetsSeconds(duration: string)
    requires multiset(duration)[':'] == 1
    ensures FormatDuration(duration) == duration + ":00"
  {
    var parts := Split(duration, ':');
    JoinSplit(duration, ':');
    assert Join(parts[1..], ':') == parts[1];
  }

  /** Two colons: the text unchanged. */
  lemma TwoColonsKept(duration: string)
    requires multiset(duration)[':'] == 2
    ensures FormatDuration(duration) == duration
  {
  }

  /** Any other number of colons, the empty text included: the default. */
  lemma OtherwiseDefault(duration: string)
    requires multiset(duration)[':'] != 1 && multiset(duration)[':'] != 2
    ensures FormatDuration(duration) == "00:00:00"
  {
  }

  /** The result always splits into exactly three pieces. */
  lemma AlwaysThreePieces(duration: string)
    ensures |Split(FormatDuration(duration), ':')| == 3
  {
    ResultHasTwoColons(duration);
  }

  lemma ResultHasTwoColons(duration: string)
    ensures multiset(FormatDuration(duration))[':'] == 2
  {
    var n := multiset(duration)[':'];
    if n == 1 {
      OneColonGetsSeconds(duration);
      assert multiset(duration + ":00") == multiset(duration) + multiset(":00");
    } else if n != 2 {
      OtherwiseDefault(duration);
      assert multiset("00:00:00") == multiset{'0', '0', ':', '0', '0', ':', '0', '0'};
    } else {
      TwoColonsKept(duration);
    }
  }

  /** Normalising twice is normalising once. */
  lemma FormatIsIdempotent(duration: string)
    ensures FormatDuration(FormatDuration(duration)) == FormatDuration(duration)
  {
    AlwaysThreePieces(duration);
    var r := FormatDuration(duration);
    assert multiset(r)[':'] == 2;
    TwoColonsKept(r);
  }
}
