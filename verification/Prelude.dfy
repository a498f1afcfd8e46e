/** Shared vocabulary: optional values, results and the text helpers Python strings offer. */
module Prelude {

  datatype Option<+T> = None | Some(value: T)

  datatype Result<+T, +E> = Ok(value: T) | Err(error: E)

  function Min(a: int, b: int): int {
    if a < b then a else b
  }

  function Max(a: int, b: int): int {
    if a < b then b else a
  }

  /** Python's `s[-n:]`: the last n elements for n > 0, everything for n == 0,
      and everything but the first -n elements for n < 0. */
  function TailSlice<T>(s: seq<T>, n: int): seq<T> {
    if n > 0 then s[Max(0, |s| - n)..]
    else s[Min(|s|, -n)..]
  }

  /** Appending and cutting to the last n keeps a tail a tail. */
  lemma TailAppend<T>(s: seq<T>, x: T, n: nat)
    requires n > 0
    ensures var grown := TailSlice(s, n) + [x];
            (if |grown| > n then grown[|grown| - n..] else grown) == TailSlice(s + [x], n)
  {
  }

  lemma ConcatAssociates<T>(a: seq<T>, b: seq<T>, c: seq<T>)
    ensures a + b + c == a + (b + c)
  {
  }

  /** Python's `text.split(sep)` for a one-character separator. */
  function Split(text: string, sep: char): (parts: seq<string>)
    ensures |parts| > 0
  {
    if text == "" then [""]
    else
      var rest := Split(text[1..], sep);
      if text[0] == sep then [""] + rest else [[text[0]] + rest[0]] + rest[1..]
  }

  /** Python's `sep.join(parts)`. */
  function Join(parts: seq<string>, sep: char): string {
    if parts == [] then ""
    else if |parts| == 1 then parts[0]
    else parts[0] + [sep] + Join(parts[1..], sep)
  }

  /** Splitting at the first separator: what stands before it is the first part. */
  lemma {:induction false} SplitHead(head: string, tail: string, sep: char)
    requires sep !in head
    ensures Split(head + [sep] + tail, sep) == [head] + Split(tail, sep)
  {
    if head == "" {
      assert (head + [sep] + tail)[1..] == tail;
    } else {
      assert (head + [sep] + tail)[1..] == head[1..] + [sep] + tail;
      SplitHead(head[1..], tail, sep);
      assert [head[0]] + head[1..] == head;
    }
  }

  /** A text without separators is its own only part. */
  lemma {:induction false} SplitPlain(text: string, sep: char)
    requires sep !in text
    ensures Split(text, sep) == [text]
  {
    if text == "" {
    } else {
      SplitPlain(text[1..], sep);
      assert [text[0]] + text[1..] == text;
    }
  }

  /** Joining the parts of a text gives the text back, and no part holds a separator. */
  lemma {:induction false} JoinSplit(text: string, sep: char)
    ensures Join(Split(text, sep), sep) == text
    ensures forall i :: 0 <= i < |Split(text, sep)| ==> sep !in Split(text, sep)[i]
  {
    if text == "" {
    } else {
      var rest := Split(text[1..], sep);
      JoinSplit(text[1..], sep);
      var parts := Split(text, sep);
      if text[0] == sep {
        assert parts[1..] == rest;
        calc {
          Join(parts, sep);
          "" + [sep] + text[1..];
          text;
        }
      } else {
        assert parts[0] == [text[0]] + rest[0];
        if |rest| > 1 {
          assert parts[1..] == rest[1..];
        }
        assert Join(parts, sep) == [text[0]] + Join(rest, sep);
      }
    }
  }

  lemma JoinThree(parts: seq<string>, sep: char)
    requires |parts| == 3
    ensures Join(parts, sep) == parts[0] + [sep] + parts[1] + [sep] + parts[2]
  {
    var rest := parts[1..];
    assert Join(rest[1..], sep) == parts[2];
    assert Join(rest, sep) == parts[1] + [sep] + parts[2];
    ConcatAssociates(parts[0] + [sep], parts[1] + [sep], parts[2]);
    ConcatAssociates(parts[0] + [sep], parts[1], [sep]);
  }

  /** The number of parts of a concatenation: a separator adds one part. */
  lemma {:induction false} SplitCount(a: string, b: string, sep: char)
    ensures |Split(a + b, sep)| == |Split(a, sep)| + |Split(b, sep)| - 1
  {
    if a == "" {
      assert a + b == b;
    } else {
      assert (a + b)[1..] == a[1..] + b;
      SplitCount(a[1..], b, sep);
    }
  }

  lemma {:induction false} OnePartIffAbsent(text: string, sep: char)
    ensures |Split(text, sep)| == 1 <==> sep !in text
  {
    if sep !in text {
      SplitPlain(text, sep);
    } else {
      JoinSplit(text, sep);
    }
  }

  lemma SplitThree(a: string, b: string, c: string, sep: char)
    requires sep !in a && sep !in b && sep !in c
    ensures Split(a + [sep] + b + [sep] + c, sep) == [a, b, c]
  {
    SplitPlain(c, sep);
    SplitHead(b, c, sep);
    SplitHead(a, b + [sep] + c, sep);
    assert a + [sep] + b + [sep] + c == a + [sep] + (b + [sep] + c);
  }

  /** Each separator inside `a` or `b` adds one part to the three. */
  lemma SplitThreeCount(a: string, b: string, c: string, sep: char)
    requires sep !in c
    ensures |Split(a + [sep] + b + [sep] + c, sep)| == |Split(a, sep)| + |Split(b, sep)| + 1
  {
    SplitPlain(c, sep);
    SplitSeparator(b, c, sep);
    SplitSeparator(a, b + [sep] + c, sep);
    assert a + [sep] + b + [sep] + c == a + [sep] + (b + [sep] + c);
  }

  lemma SplitSeparator(a: string, b: string, sep: char)
    ensures |Split(a + [sep] + b, sep)| == |Split(a, sep)| + |Split(b, sep)|
  {
    SplitCount(a, [sep] + b, sep);
    assert ([sep] + b)[1..] == b;
    assert a + [sep] + b == a + ([sep] + b);
  }
}
