/** String helpers: prefix tests, Python's `str.join`, and ASCII lower-casing. */
module Text {

  /** Python's `s.startswith(prefix)`. */
  predicate StartsWith(s: string, prefix: string) {
    |prefix| <= |s| && s[..|prefix|] == prefix
  }

  lemma PrefixOfConcat(a: string, b: string)
    ensures StartsWith(a + b, a)
  {
    assert (a + b)[..|a|] == a;
  }

  /** Python's `sep.join(parts)`: the parts with `sep` between neighbours. */
  function Join(sep: string, parts: seq<string>): string
    decreases |parts|
  {
    if |parts| == 0 then ""
    else if |parts| == 1 then parts[0]
    else parts[0] + sep + Join(sep, parts[1..])
  }

  /** Every part preceded by `marker`: a bulleted list. */
  function Bullets(marker: string, parts: seq<string>): string
    decreases |parts|
  {
    if |parts| == 0 then "" else marker + parts[0] + Bullets(marker, parts[1..])
  }

  /** Writing the separator once in front of a join turns every separator into a bullet
      marker: `marker + marker.join(parts)` lists each part after its own marker. */
  lemma {:induction false} JoinAfterMarker(marker: string, parts: seq<string>)
    requires |parts| > 0
    ensures marker + Join(marker, parts) == Bullets(marker, parts)
    decreases |parts|
  {
    if |parts| == 1 {
      assert Bullets(marker, parts[1..]) == "";
    } else {
      JoinAfterMarker(marker, parts[1..]);
      calc {
        marker + Join(marker, parts);
        marker + (parts[0] + marker + Join(marker, parts[1..]));
        marker + parts[0] + (marker + Join(marker, parts[1..]));
        marker + parts[0] + Bullets(marker, parts[1..]);
      }
    }
  }

  predicate IsUpperAscii(c: char) {
    'A' <= c <= 'Z'
  }

  /** Lower-cases one ASCII letter and leaves every other character alone. */
  function LowerChar(c: char): char {
    if IsUpperAscii(c) then (c as int + 32) as char else c
  }

  /** Python's `s.lower()`, restricted to the ASCII letters. */
  function ToLower(s: string): (r: string)
    ensures |r| == |s|
    ensures forall i :: 0 <= i < |s| ==> !IsUpperAscii(r[i])
    ensures forall i :: 0 <= i < |s| && !IsUpperAscii(s[i]) ==> r[i] == s[i]
    ensures forall i :: 0 <= i < |s| && IsUpperAscii(s[i]) ==> r[i] as int - s[i] as int == 32
  {
    seq(|s|, i requires 0 <= i < |s| => LowerChar(s[i]))
  }

  /** Lower-casing twice is lower-casing once. */
  lemma ToLowerIdempotent(s: string)
    ensures ToLower(ToLower(s)) == ToLower(s)
  {
  }
}
