/** Strings as java.lang.String and java.io.File treat them: trimming, suffixes,
    splitting a path string into name segments, and the UTF-8 encoding that
    FileWriter applies on Android. */
module Text {

  newtype byte = x: int | 0 <= x < 256
  type Bytes = seq<byte>

  // ---------------------------------------------------------------- trim

  /** String.trim() treats every character up to U+0020 as removable. */
  predicate IsBlank(c: char) { c <= ' ' }

  function TrimStart(s: string): (r: string)
    ensures |r| <= |s| && r == s[|s| - |r|..]
    ensures forall i | 0 <= i < |s| - |r| :: IsBlank(s[i])
    ensures r == [] || !IsBlank(r[0])
  {
    if s != [] && IsBlank(s[0]) then TrimStart(s[1..]) else s
  }

  function TrimEnd(s: string): (r: string)
    ensures |r| <= |s| && r == s[..|r|]
    ensures forall i | |r| <= i < |s| :: IsBlank(s[i])
    ensures r == [] || !IsBlank(r[|r| - 1])
  {
    if s != [] && IsBlank(s[|s| - 1]) then TrimEnd(s[..|s| - 1]) else s
  }

  /** String.trim(): the slice of s left after removing blanks at both ends. */
  function Trim(s: string): (r: string)
    ensures exists i :: TrimmedAt(s, r, i)
    ensures r == [] || (!IsBlank(r[0]) && !IsBlank(r[|r| - 1]))
    ensures r == [] <==> forall i | 0 <= i < |s| :: IsBlank(s[i])
  {
    var u := TrimStart(s);
    var r := TrimEnd(u);
    var i := |s| - |u|;
    assert r == s[i..i + |r|];
    assert forall j | i + |r| <= j < |s| :: s[j] == u[j - i];
    assert TrimmedAt(s, r, i);
    r
  }

  /** r is s[i..i + |r|] and everything of s around it is blank. */
  predicate TrimmedAt(s: string, r: string, i: int)
  {
    && 0 <= i <= |s| - |r|
    && r == s[i..i + |r|]
    && (forall j | 0 <= j < i :: IsBlank(s[j]))
    && (forall j | i + |r| <= j < |s| :: IsBlank(s[j]))
  }

  lemma TrimIdempotent(s: string)
    ensures Trim(Trim(s)) == Trim(s)
  {
    var r := Trim(s);
    if r != [] {
      assert TrimStart(r) == r;
      assert TrimEnd(r) == r;
    }
  }

  // ------------------------------------------------------------ suffixes

  /** String.endsWith. */
  predicate EndsWith(s: string, suffix: string)
  {
    |suffix| <= |s| && s[|s| - |suffix|..] == suffix
  }

  lemma EndsWithConcat(s: string, suffix: string)
    ensures EndsWith(s + suffix, suffix)
  {
    assert (s + suffix)[|s|..] == suffix;
  }

  /** `w` occurs in `s` as a contiguous block (String.contains). */
  ghost predicate Contains(s: string, w: string)
  {
    exists i :: OccursAt(s, w, i)
  }

  predicate OccursAt(s: string, w: string, i: int)
  {
    0 <= i <= |s| - |w| && s[i..i + |w|] == w
  }

  lemma {:induction false} ContainsMiddle(a: string, w: string, b: string)
    ensures Contains(a + w + b, w)
  {
    var s := a + w + b;
    assert s[|a|..|a| + |w|] == w;
    assert OccursAt(s, w, |a|);
  }

  // -------------------------------------------------------------- paths

  /** The path segments of s, as java.io.File normalises a path on Unix: split
      at '/', with the empty parts of repeated, leading and trailing separators
      dropped. "." and ".." are ordinary names here. */
  function Segments(s: string): (r: seq<string>)
    ensures forall i | 0 <= i < |r| :: IsName(r[i])
  {
    SegmentsFrom(s, "")
  }

  /** A non-empty segment without a separator. */
  predicate IsName(w: string) { w != "" && '/' !in w }

  function Flush(part: string): seq<string>
  {
    if part == "" then [] else [part]
  }

  /** Segments of s when `part` has already been read from the current segment. */
  function SegmentsFrom(s: string, part: string): (r: seq<string>)
    requires '/' !in part
    ensures forall i | 0 <= i < |r| :: IsName(r[i])
    decreases |s|
  {
    if s == [] then Flush(part)
    else if s[0] == '/' then Flush(part) + SegmentsFrom(s[1..], "")
    else SegmentsFrom(s[1..], part + [s[0]])
  }

  lemma {:induction false} SegmentsFromConcat(a: string, b: string, part: string)
    requires '/' !in part
    ensures SegmentsFrom(a + "/" + b, part) == SegmentsFrom(a, part) + SegmentsFrom(b, "")
    decreases |a|
  {
    if a == [] {
      assert a + "/" + b == "/" + b;
      assert ("/" + b)[1..] == b;
    } else if a[0] == '/' {
      assert (a + "/" + b)[1..] == a[1..] + "/" + b;
      SegmentsFromConcat(a[1..], b, "");
    } else {
      assert (a + "/" + b)[1..] == a[1..] + "/" + b;
      SegmentsFromConcat(a[1..], b, part + [a[0]]);
    }
  }

  /** Joining two path strings with a separator concatenates their segments:
      `new File(new File(x), y)` and `new File(x + "/" + y)` name the same file. */
  lemma SegmentsConcat(a: string, b: string)
    ensures Segments(a + "/" + b) == Segments(a) + Segments(b)
  {
    SegmentsFromConcat(a, b, "");
  }

  lemma {:induction false} SegmentsFromName(w: string, part: string)
    requires '/' !in part && '/' !in w && part + w != ""
    ensures SegmentsFrom(w, part) == [part + w]
    decreases |w|
  {
    if w == [] {
      assert part + w == part;
    } else {
      assert (part + [w[0]]) + w[1..] == part + w;
      SegmentsFromName(w[1..], part + [w[0]]);
    }
  }

  /** A single name is its own only segment. */
  lemma SegmentsOfName(w: string)
    requires IsName(w)
    ensures Segments(w) == [w]
  {
    SegmentsFromName(w, "");
    assert "" + w == w;
  }

  /** parts[0] sep parts[1] sep ... */
  function JoinWith(parts: seq<string>, sep: char): (r: string)
    ensures |parts| == 1 ==> r == parts[0]
  {
    if |parts| == 0 then ""
    else if |parts| == 1 then parts[0]
    else parts[0] + [sep] + JoinWith(parts[1..], sep)
  }

  /** Splitting a '/'-joined list of names gives the names back. */
  lemma {:induction false} SegmentsOfJoin(parts: seq<string>)
    requires forall i | 0 <= i < |parts| :: IsName(parts[i])
    ensures Segments(JoinWith(parts, '/')) == parts
  {
    if |parts| == 0 {
    } else if |parts| == 1 {
      SegmentsOfName(parts[0]);
    } else {
      SegmentsConcat(parts[0], JoinWith(parts[1..], '/'));
      SegmentsOfName(parts[0]);
      SegmentsOfJoin(parts[1..]);
    }
  }

  // --------------------------------------------------------------- UTF-8

  /** How many bytes a UTF-8 sequence that starts with lead byte b has (0: not a lead byte). */
  function SequenceLength(b: byte): nat
  {
    if b < 0x80 then 1
    else if b < 0xC0 then 0
    else if b < 0xE0 then 2
    else if b < 0xF0 then 3
    else if b < 0xF8 then 4
    else 0
  }

  predicate IsContinuation(b: byte) { 0x80 <= b < 0xC0 }

  /** The code point a well-formed one-character UTF-8 sequence stands for. */
  function DecodeChar(r: Bytes): int
    requires 1 <= |r| <= 4
  {
    if |r| == 1 then r[0] as int
    else if |r| == 2 then (r[0] as int - 0xC0) * 64 + (r[1] as int - 0x80)
    else if |r| == 3 then (r[0] as int - 0xE0) * 4096 + (r[1] as int - 0x80) * 64 + (r[2] as int - 0x80)
    else (r[0] as int - 0xF0) * 262144 + (r[1] as int - 0x80) * 4096 + (r[2] as int - 0x80) * 64 + (r[3] as int - 0x80)
  }

  /** UTF-8 encoding of one Unicode scalar value. */
  function EncodeChar(c: char): (r: Bytes)
    ensures 1 <= |r| <= 4 && SequenceLength(r[0]) == |r|
    ensures forall i | 1 <= i < |r| :: IsContinuation(r[i])
  {
    var n := c as int;
    if n < 0x80 then [n as byte]
    else if n < 0x800 then [(0xC0 + n / 64) as byte, (0x80 + n % 64) as byte]
    else if n < 0x10000 then
      [(0xE0 + n / 4096) as byte, (0x80 + (n / 64) % 64) as byte, (0x80 + n % 64) as byte]
    else
      [(0xF0 + n / 262144) as byte, (0x80 + (n / 4096) % 64) as byte,
       (0x80 + (n / 64) % 64) as byte, (0x80 + n % 64) as byte]
  }

  /** Decoding the encoding of a character gives its code point back. */
  lemma DecodeEncode(c: char)
    ensures DecodeChar(EncodeChar(c)) == c as int
  {
    var n := c as int;
    var r := EncodeChar(c);
    if n < 0x80 {
    } else if n < 0x800 {
      assert n == (n / 64) * 64 + n % 64;
    } else if n < 0x10000 {
      assert n / 64 == (n / 4096) * 64 + (n / 64) % 64;
      assert n == (n / 64) * 64 + n % 64;
    } else {
      assert n / 4096 == (n / 262144) * 64 + (n / 4096) % 64;
      assert n / 64 == (n / 4096) * 64 + (n / 64) % 64;
      assert n == (n / 64) * 64 + n % 64;
    }
  }

  /** The bytes a java.io.FileWriter writes for s on Android (UTF-8). */
  function Utf8(s: string): (r: Bytes)
    ensures |s| <= |r| <= 4 * |s|
  {
    if s == [] then [] else EncodeChar(s[0]) + Utf8(s[1..])
  }

  lemma {:induction false} Utf8Concat(a: string, b: string)
    ensures Utf8(a + b) == Utf8(a) + Utf8(b)
  {
    if a == [] {
      assert a + b == b;
    } else {
      assert (a + b)[0] == a[0];
      assert (a + b)[1..] == a[1..] + b;
      Utf8Concat(a[1..], b);
    }
  }

  /** ASCII text is written one byte per character, byte = character code. */
  lemma {:induction false} Utf8Ascii(s: string)
    requires forall i | 0 <= i < |s| :: s[i] as int < 0x80
    ensures |Utf8(s)| == |s|
    ensures forall i | 0 <= i < |s| :: Utf8(s)[i] as int == s[i] as int
  {
    if s != [] {
      Utf8Ascii(s[1..]);
    }
  }
}
