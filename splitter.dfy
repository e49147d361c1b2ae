/**
 * `_split_message` in `news/summarizer.py`: a message longer than the limit is
 * cut at newlines and its lines are packed greedily into parts. Every line gets
 * its newline back, the last one included.
 */
module Splitter {
  import opened TextUtil

  /**
   * Packing `lines[i..]` onto the part being built, `current`: a line joins it
   * when `current`, the line and its newline fit in `k`; otherwise a non-empty
   * `current` is emitted and the line starts the next part.
   */
  function Pack(lines: seq<string>, i: nat, current: string, k: int): seq<string>
    requires i <= |lines|
    decreases |lines| - i
  {
    if i == |lines| then (if current != "" then [current] else [])
    else if |current| + |lines[i]| + 1 <= k then Pack(lines, i + 1, current + lines[i] + "\n", k)
    else (if current != "" then [current] else []) + Pack(lines, i + 1, lines[i] + "\n", k)
  }

  /** The parts `_split_message(m, k)` returns. */
  function SplitParts(m: string, k: int): seq<string> {
    if |m| <= k then [m] else Pack(Lines(m), 0, "", k)
  }

  method SplitMessage(message: string, maxLength: int) returns (parts: seq<string>)
    ensures parts == SplitParts(message, maxLength)
  {
    if |message| <= maxLength {
      return [message];
    }
    parts := [];
    var lines := Lines(message);
    var current := "";
    for i := 0 to |lines|
      invariant parts + Pack(lines, i, current, maxLength) == Pack(lines, 0, "", maxLength)
    {
      var line := lines[i];
      if |current| + |line| + 1 <= maxLength {
        current := current + line + "\n";
      } else {
        if current != "" {
          parts := parts + [current];
        }
        current := line + "\n";
      }
    }
    if current != "" {
      parts := parts + [current];
    }
  }

  /** A single line with its newline: the only newline is the last character. */
  predicate OneLine(p: string) {
    |p| > 0 && p[|p| - 1] == '\n' && '\n' !in p[..|p| - 1]
  }

  /** A part as the packer emits it: non-empty, newline-terminated, within `k` unless it is one line. */
  predicate PartShape(p: string, k: int) {
    p != "" && p[|p| - 1] == '\n' && (|p| <= k || OneLine(p))
  }

  lemma {:induction false} PackConcat(lines: seq<string>, i: nat, current: string, k: int)
    requires i <= |lines|
    ensures Flatten(Pack(lines, i, current, k)) == current + Terminated(lines[i..])
    decreases |lines| - i
  {
    if i == |lines| {
      assert lines[i..] == [];
      if current != "" {
        assert Flatten([current]) == current + Flatten([]);
      }
    } else {
      var line := lines[i];
      assert lines[i..][0] == line && lines[i..][1..] == lines[i + 1..];
      assert Terminated(lines[i..]) == line + "\n" + Terminated(lines[i + 1..]);
      if |current| + |line| + 1 <= k {
        PackConcat(lines, i + 1, current + line + "\n", k);
      } else {
        var head := if current != "" then [current] else [];
        PackConcat(lines, i + 1, line + "\n", k);
        FlattenAppend(head, Pack(lines, i + 1, line + "\n", k));
        assert Flatten(head) == current by {
          if current != "" {
            assert Flatten([current]) == current + Flatten([]);
          }
        }
      }
    }
  }

  lemma {:induction false} PackShape(lines: seq<string>, i: nat, current: string, k: int)
    requires i <= |lines|
    requires forall j :: 0 <= j < |lines| ==> '\n' !in lines[j]
    requires current == "" || PartShape(current, k)
    ensures forall p :: p in Pack(lines, i, current, k) ==> PartShape(p, k)
    decreases |lines| - i
  {
    if i < |lines| {
      var line := lines[i];
      var next := line + "\n";
      assert next[..|next| - 1] == line;
      if |current| + |line| + 1 <= k {
        var joined := current + line + "\n";
        assert joined[|joined| - 1] == '\n' && |joined| <= k;
        PackShape(lines, i + 1, joined, k);
      } else {
        PackShape(lines, i + 1, next, k);
      }
    }
  }

  /**
   * Part `p` was closed only because the first line of the part after it, `next`,
   * did not fit: `p`, that line and its newline together exceed `k`.
   */
  ghost predicate FlushForced(p: string, next: string, k: int) {
    exists t :: 0 <= t < |next| && next[t] == '\n' && '\n' !in next[..t] && |p| + t + 1 > k
  }

  /** Greedy packing: every part but the last was closed by a line that would not fit in it. */
  ghost predicate Greedy(ps: seq<string>, k: int) {
    forall j :: 0 <= j < |ps| - 1 ==> FlushForced(ps[j], ps[j + 1], k)
  }

  lemma GreedyCons(p: string, rest: seq<string>, k: int)
    requires Greedy(rest, k) && (rest != [] ==> FlushForced(p, rest[0], k))
    ensures Greedy([p] + rest, k)
  {
    var ps := [p] + rest;
    forall j | 0 <= j < |ps| - 1 ensures FlushForced(ps[j], ps[j + 1], k) {
      if j > 0 {
        assert ps[j] == rest[j - 1] && ps[j + 1] == rest[j];
      }
    }
  }

  /** A part that starts with `line + "\n"` has `line` as its first line. */
  lemma LineStartsPart(p: string, line: string, next: string, k: int)
    requires '\n' !in line && line + "\n" <= next && |p| + |line| + 1 > k
    ensures FlushForced(p, next, k)
  {
    var t := |line|;
    assert next[t] == (line + "\n")[t] == '\n';
    assert next[..t] == line;
  }

  /**
   * The packer is greedy, and the part being built is where the next emitted
   * part starts: a non-empty `current` begins the first part, and with an empty
   * `current` the first part begins with the next line.
   */
  lemma {:induction false} PackGreedy(lines: seq<string>, i: nat, current: string, k: int)
    requires i <= |lines|
    requires forall j :: 0 <= j < |lines| ==> '\n' !in lines[j]
    ensures var ps := Pack(lines, i, current, k);
      Greedy(ps, k)
      && (current != "" ==> ps != [] && current <= ps[0])
      && (current == "" && i < |lines| ==> ps != [] && lines[i] + "\n" <= ps[0])
    decreases |lines| - i
  {
    if i < |lines| {
      var line := lines[i];
      if |current| + |line| + 1 <= k {
        var joined := current + line + "\n";
        PackGreedy(lines, i + 1, joined, k);
        assert current <= joined;
        if current == "" {
          assert joined == line + "\n";
        }
      } else {
        var next := line + "\n";
        PackGreedy(lines, i + 1, next, k);
        var rest := Pack(lines, i + 1, next, k);
        if current != "" {
          LineStartsPart(current, line, rest[0], k);
          GreedyCons(current, rest, k);
        }
      }
    }
  }

  /**
   * A long message is packed greedily: a part is closed only when the next line
   * and its newline would push it past the limit.
   */
  lemma SplitGreedy(m: string, k: int)
    requires |m| > k
    ensures Greedy(SplitParts(m, k), k)
  {
    PackGreedy(Lines(m), 0, "", k);
  }

  /**
   * A message that fits comes back whole. A longer one comes back as parts whose
   * concatenation is the message with one newline added at the end, so no line
   * is cut, lost or reordered.
   */
  lemma SplitRoundTrip(m: string, k: int)
    ensures |m| <= k ==> SplitParts(m, k) == [m]
    ensures |m| > k ==> Flatten(SplitParts(m, k)) == m + "\n"
  {
    if |m| > k {
      PackConcat(Lines(m), 0, "", k);
      assert Lines(m)[0..] == Lines(m);
      TerminatedLines(m);
    }
  }

  /**
   * Every part of a split message is non-empty and ends with a newline; a part
   * longer than `k` is exactly one line.
   */
  lemma SplitPartsShape(m: string, k: int)
    requires |m| > k
    ensures SplitParts(m, k) != []
    ensures forall p :: p in SplitParts(m, k) ==> PartShape(p, k)
  {
    PackShape(Lines(m), 0, "", k);
    SplitRoundTrip(m, k);
  }
}
