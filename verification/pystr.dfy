/**
  The few pieces of Python's built-in string and byte-string behaviour the
  proxy relies on: `str.split(sep)` with an explicit separator, its inverse
  `sep.join(parts)`, `bytes.startswith(prefix)`, and the exceptions the
  handlers can raise.
 */
module PyStr {

  import opened Wrappers

  /** A byte, as found in the Python `bytes` objects read from a file descriptor. */
  newtype byte = x: int | 0 <= x < 256

  type Bytes = seq<byte>

  /** The Python exceptions the modelled code can raise. */
  datatype PyError =
    | IndexError                    // subscript past the end of a list
    | UnboundLocalError(name: string) // a local read before any assignment
    | AttributeError(name: string)  // an attribute the object never received

  /** `sep.join(parts)`. */
  function Join(parts: seq<string>, sep: char): string
  {
    if |parts| == 0 then ""
    else if |parts| == 1 then parts[0]
    else parts[0] + [sep] + Join(parts[1..], sep)
  }

  /** No part holds the separator. */
  predicate SeparatorFree(parts: seq<string>, sep: char)
  {
    forall i :: 0 <= i < |parts| ==> sep !in parts[i]
  }

  /**
    `s.split(sep)` for a one-character separator: the pieces between
    consecutive occurrences of `sep`. There is always at least one piece
    (the empty string splits into `[""]`), no piece holds the separator,
    and joining the pieces back with `sep` gives `s` again.
   */
  function Split(s: string, sep: char): (parts: seq<string>)
    ensures |parts| >= 1
    ensures SeparatorFree(parts, sep)
    ensures Join(parts, sep) == s
    decreases |s|
  {
    if |s| == 0 then [""]
    else
      var rest := Split(s[1..], sep);
      if s[0] == sep then
        assert s == [] + [sep] + Join(rest, sep);
        [""] + rest
      else
        JoinConsFirst(rest, sep, s[0]);
        [[s[0]] + rest[0]] + rest[1..]
  }

  /** Prepending a character to the first part prepends it to the joined string. */
  lemma JoinConsFirst(parts: seq<string>, sep: char, c: char)
    requires |parts| >= 1
    ensures Join([[c] + parts[0]] + parts[1..], sep) == [c] + Join(parts, sep)
  {
  }

  /** A string without the separator splits into itself alone. */
  lemma SplitWithoutSeparator(s: string, sep: char)
    requires sep !in s
    ensures Split(s, sep) == [s]
    decreases |s|
  {
  }

  /**
    `Split` is the only separator-free, non-empty list of pieces that joins
    back to `s`: its three postconditions pin it down completely.
   */
  lemma {:induction false} SplitUnique(s: string, sep: char, parts: seq<string>)
    requires |parts| >= 1
    requires SeparatorFree(parts, sep)
    requires Join(parts, sep) == s
    ensures parts == Split(s, sep)
    decreases |s|, |parts[0]|
  {
    if |parts| == 1 {
      assert sep !in parts[0];
      SplitWithoutSeparator(s, sep);
    } else if |parts[0]| == 0 {
      // s == sep :: Join(parts[1..])
      assert s == [sep] + Join(parts[1..], sep);
      assert s[1..] == Join(parts[1..], sep);
      assert SeparatorFree(parts[1..], sep) by {
        forall i | 0 <= i < |parts[1..]| ensures sep !in parts[1..][i] {
          assert parts[1..][i] == parts[i + 1];
        }
      }
      SplitUnique(s[1..], sep, parts[1..]);
      assert parts == [""] + parts[1..];
    } else {
      var c := parts[0][0];
      var tail := [parts[0][1..]] + parts[1..];
      assert parts[0] == [c] + parts[0][1..];
      assert c != sep by { assert c in parts[0]; }
      assert tail[1..] == parts[1..];
      assert parts == [[c] + tail[0]] + tail[1..];
      JoinConsFirst(tail, sep, c);
      assert s == [c] + Join(tail, sep);
      assert s[0] == c;
      assert s[1..] == Join(tail, sep);
      assert SeparatorFree(tail, sep) by {
        forall i | 0 <= i < |tail| ensures sep !in tail[i] {
          if i == 0 {
            assert forall x :: x in parts[0][1..] ==> x in parts[0];
          } else {
            assert tail[i] == parts[i];
          }
        }
      }
      SplitUnique(s[1..], sep, tail);
    }
  }

  /**
    The text holds the separator exactly when it splits into two or more
    pieces; then it is the first piece, the separator, the second piece and
    either nothing or another separator with whatever follows. So the first
    piece is the text before the first separator and the second piece the
    text between the first and the second.
   */
  lemma {:induction false} SplitFirstTwo(s: string, sep: char)
    ensures sep in s <==> |Split(s, sep)| >= 2
    ensures |Split(s, sep)| >= 2 ==>
      var p := Split(s, sep);
      exists rest: string ::
        && s == p[0] + [sep] + p[1] + rest
        && (rest == [] || rest[0] == sep)
  {
    var p := Split(s, sep);
    if |p| == 1 {
      assert s == p[0];
    } else {
      assert s == p[0] + [sep] + Join(p[1..], sep);
      assert s[|p[0]|] == sep;
      var rest: string := if |p| == 2 then [] else [sep] + Join(p[2..], sep);
      assert p[1..][1..] == p[2..];
      assert Join(p[1..], sep) == p[1] + rest;
      assert s == p[0] + [sep] + p[1] + rest;
    }
  }

  /** `b.startswith(prefix)` on byte strings. */
  predicate StartsWith(b: Bytes, prefix: Bytes)
  {
    |prefix| <= |b| && b[..|prefix|] == prefix
  }

  /** Python truthiness of an optional integer: `None` and `0` are false. */
  predicate Truthy(x: Option<int>)
  {
    x.Some? && x.value != 0
  }
}
