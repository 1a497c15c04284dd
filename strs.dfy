/**
 * The few functions of Go's strings package the senders use, for
 * one-character separators.
 */
module GoStrings {
  import opened Wrappers

  /** strings.Split(s, [sep]). */
  function Split(s: string, sep: char): (parts: seq<string>)
    ensures |parts| >= 1
    ensures forall i :: 0 <= i < |parts| ==> sep !in parts[i]
    decreases |s|
  {
    if s == [] then [""]
    else
      var rest := Split(s[1..], sep);
      if s[0] == sep then [""] + rest
      else [[s[0]] + rest[0]] + rest[1..]
  }

  /** strings.Join(parts, [sep]). */
  function Join(parts: seq<string>, sep: char): string
  {
    if parts == [] then ""
    else if |parts| == 1 then parts[0]
    else parts[0] + [sep] + Join(parts[1..], sep)
  }

  /** Splitting loses nothing: joining the parts gives the string back. */
  lemma {:induction false} JoinSplit(s: string, sep: char)
    ensures Join(Split(s, sep), sep) == s
  {
    if s != [] {
      JoinSplit(s[1..], sep);
      var rest := Split(s[1..], sep);
      if s[0] == sep {
        assert Split(s, sep) == [""] + rest;
        assert ([""] + rest)[1..] == rest;
      } else if |rest| == 1 {
        assert Split(s, sep) == [[s[0]] + rest[0]];
        assert s == [s[0]] + s[1..];
      } else {
        var parts := Split(s, sep);
        assert parts[0] == [s[0]] + rest[0] && parts[1..] == rest[1..];
        assert Join(rest, sep) == rest[0] + [sep] + Join(rest[1..], sep);
        assert s == [s[0]] + s[1..];
      }
    }
  }

  /** Text without the separator stays in one piece, glued to whatever the rest starts with. */
  lemma {:induction false} SplitPrefix(p: string, tail: string, sep: char)
    requires sep !in p
    ensures var rest := Split(tail, sep);
            Split(p + tail, sep) == [p + rest[0]] + rest[1..]
    decreases |p|
  {
    var rest := Split(tail, sep);
    if p == [] {
      assert p + tail == tail;
      assert p + rest[0] == rest[0];
      assert rest == [rest[0]] + rest[1..];
    } else {
      assert sep !in p[1..] by {
        forall k | 0 <= k < |p[1..]| ensures p[1..][k] != sep {
          assert p[1..][k] == p[k + 1];
        }
      }
      SplitPrefix(p[1..], tail, sep);
      var s := p + tail;
      assert s[0] == p[0] && s[0] != sep;
      assert s[1..] == p[1..] + tail;
      var r := Split(s[1..], sep);
      assert r == [p[1..] + rest[0]] + rest[1..];
      assert Split(s, sep) == [[s[0]] + r[0]] + r[1..];
      assert [p[0]] + (p[1..] + rest[0]) == p + rest[0];
    }
  }

  /** Joining parts that do not contain the separator and splitting again gives the parts back. */
  lemma {:induction false} SplitJoin(parts: seq<string>, sep: char)
    requires |parts| > 0
    requires forall i :: 0 <= i < |parts| ==> sep !in parts[i]
    ensures Split(Join(parts, sep), sep) == parts
    decreases |parts|
  {
    if |parts| == 1 {
      SplitPrefix(parts[0], [], sep);
      assert parts[0] + [] == parts[0];
    } else {
      var rest := Join(parts[1..], sep);
      assert forall i :: 0 <= i < |parts[1..]| ==> parts[1..][i] == parts[i + 1];
      SplitJoin(parts[1..], sep);
      var tail := [sep] + rest;
      assert tail[0] == sep && tail[1..] == rest;
      assert Split(tail, sep) == [""] + parts[1..];
      SplitPrefix(parts[0], tail, sep);
      assert Join(parts, sep) == parts[0] + tail;
      assert parts[0] + "" == parts[0];
      assert parts == [parts[0]] + parts[1..];
    }
  }

  /** The index of the first `sep` in `s`, None when there is none. */
  function IndexOf(s: string, sep: char): (k: Option<nat>)
    ensures k.Some? ==> k.value < |s| && s[k.value] == sep && sep !in s[..k.value]
    ensures k.None? ==> sep !in s
    decreases |s|
  {
    if s == [] then None
    else if s[0] == sep then Some(0)
    else match IndexOf(s[1..], sep)
      case None => None
      case Some(k) =>
        assert s[..k + 1] == [s[0]] + s[1..][..k];
        Some(k + 1)
  }

  /**
   * strings.SplitN(s, [sep], 2): the text before the first `sep` and, when
   * there is one, the text after it.
   */
  function SplitTwo(s: string, sep: char): (r: (string, Option<string>))
    ensures sep !in r.0
    ensures r.1.None? ==> r.0 == s
    ensures r.1.Some? ==> s == r.0 + [sep] + r.1.value
  {
    match IndexOf(s, sep)
    case None => (s, None)
    case Some(k) =>
      assert s == s[..k] + [sep] + s[k + 1..];
      (s[..k], Some(s[k + 1..]))
  }
}
