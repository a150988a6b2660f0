/**
 * String splitting as JavaScript's `String.prototype.split` does it for a
 * one-character separator, with the inverse join and the "last piece" view.
 */
module Text {

  /** `s.split(sep)`: the maximal separator-free pieces, in order; never empty. */
  function Split(s: string, sep: char): (parts: seq<string>)
    ensures |parts| >= 1
    ensures forall i :: 0 <= i < |parts| ==> sep !in parts[i]
    decreases |s|
  {
    if s == [] then [""]
    else
      var rest := Split(s[1..], sep);
      if s[0] == sep then [""] + rest
      else [[s[0]] + rest[0]] + rest[1..]
  }

  /** `parts.join(sep)`. */
  function Join(parts: seq<string>, sep: char): string
    requires |parts| >= 1
    decreases |parts|
  {
    if |parts| == 1 then parts[0] else parts[0] + [sep] + Join(parts[1..], sep)
  }

  /** Joining the pieces again gives back the string that was split. */
  lemma {:induction false} JoinSplit(s: string, sep: char)
    ensures Join(Split(s, sep), sep) == s
    decreases |s|
  {
    if s != [] {
      var rest := Split(s[1..], sep);
      JoinSplit(s[1..], sep);
      if s[0] == sep {
        assert Split(s, sep) == [""] + rest;
        assert Join([""] + rest, sep) == "" + [sep] + Join(rest, sep) by {
          assert ([""] + rest)[1..] == rest;
        }
        assert s == [s[0]] + s[1..];
      } else {
        var parts := Split(s, sep);
        assert parts == [[s[0]] + rest[0]] + rest[1..];
        if |rest| == 1 {
          assert Join(parts, sep) == [s[0]] + rest[0];
        } else {
          assert parts[1..] == rest[1..];
          assert Join(rest, sep) == rest[0] + [sep] + Join(rest[1..], sep);
        }
        assert s == [s[0]] + s[1..];
      }
    }
  }

  /** Splitting a join of separator-free pieces recovers the pieces. */
  lemma {:induction false} SplitJoin(parts: seq<string>, sep: char)
    requires |parts| >= 1
    requires forall i :: 0 <= i < |parts| ==> sep !in parts[i]
    ensures Split(Join(parts, sep), sep) == parts
    decreases |parts|
  {
    if |parts| == 1 {
      SplitFree(parts[0], sep);
    } else {
      SplitJoin(parts[1..], sep);
      SplitCons(parts[0], Join(parts[1..], sep), sep);
      assert parts == [parts[0]] + parts[1..];
    }
  }

  /** A separator-free string is its own only piece. */
  lemma {:induction false} SplitFree(s: string, sep: char)
    requires sep !in s
    ensures Split(s, sep) == [s]
    decreases |s|
  {
    if s != [] {
      SplitFree(s[1..], sep);
      assert s == [s[0]] + s[1..];
    }
  }

  /** A separator-free head followed by the separator contributes exactly one piece. */
  lemma {:induction false} SplitCons(head: string, tail: string, sep: char)
    requires sep !in head
    ensures Split(head + [sep] + tail, sep) == [head] + Split(tail, sep)
    decreases |head|
  {
    var s := head + [sep] + tail;
    if head == [] {
      assert s[1..] == tail;
    } else {
      assert s[1..] == head[1..] + [sep] + tail;
      SplitCons(head[1..], tail, sep);
      assert head == [head[0]] + head[1..];
    }
  }

  /** The text after the last separator: `s.split(sep).pop()`. */
  function Last(s: string, sep: char): string
  {
    var parts := Split(s, sep);
    parts[|parts| - 1]
  }

  /**
   * `Last` is the longest separator-free suffix: it ends `s`, holds no
   * separator, and is either all of `s` or preceded by a separator.
   */
  lemma {:induction false} LastIsSuffixAfterSeparator(s: string, sep: char)
    ensures |Last(s, sep)| <= |s|
    ensures s[|s| - |Last(s, sep)|..] == Last(s, sep)
    ensures sep !in Last(s, sep)
    ensures |Last(s, sep)| == |s| <==> sep !in s
    ensures |Last(s, sep)| < |s| ==> s[|s| - |Last(s, sep)| - 1] == sep
    decreases |s|
  {
    if s != [] {
      var rest := Split(s[1..], sep);
      LastIsSuffixAfterSeparator(s[1..], sep);
      var l := Last(s[1..], sep);
      assert l == rest[|rest| - 1];
      if s[0] == sep {
        assert Split(s, sep) == [""] + rest;
        assert Last(s, sep) == l;
        assert sep in s by { assert s[0] == sep; }
      } else if sep !in s[1..] {
        SplitFree(s[1..], sep);
        assert Split(s, sep) == [[s[0]] + s[1..]];
        assert Last(s, sep) == s by { assert s == [s[0]] + s[1..]; }
        assert sep !in s by {
          forall i | 0 <= i < |s| ensures s[i] != sep {
            if i > 0 { assert s[i] == s[1..][i - 1]; }
          }
        }
      } else {
        JoinSplit(s[1..], sep);
        assert |rest| > 1;
        assert Split(s, sep) == [[s[0]] + rest[0]] + rest[1..];
        assert Last(s, sep) == l;
        var k := |s| - |l| - 1;
        assert s[k] == s[1..][k - 1];
        assert sep in s;
      }
    }
  }
}
