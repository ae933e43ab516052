/** Octet sequences and C strings, as the DDS Security tokens carry them. */
module Octets {

  newtype byte = x: int | 0 <= x < 256

  /** An `OctetSeq`: its length field is an unsigned 32-bit integer. */
  type OctetSeq = s: seq<byte> | |s| < 0x1_0000_0000

  datatype Option<+T> = None | Some(value: T)

  /** A text that a NUL-terminated octet sequence can hold. */
  predicate IsCString(s: string) {
    && |s| < 0xFFFF_FFFF
    && forall i :: 0 <= i < |s| ==> 0 < s[i] as int < 256
  }

  type CString = s: string | IsCString(s)

  function Characters(b: seq<byte>): (s: string)
    ensures |s| == |b|
  {
    seq(|b|, i requires 0 <= i < |b| => b[i] as int as char)
  }

  /** The octets of a text, with the terminating NUL. */
  function Terminated(s: CString): (b: OctetSeq)
    ensures |b| == |s| + 1
  {
    seq(|s|, i requires 0 <= i < |s| => s[i] as int as byte) + [0]
  }

  /** The prefix in front of the first NUL. */
  function UpToNul(b: seq<byte>): (r: seq<byte>)
    ensures r <= b && 0 !in r
  {
    if b == [] || b[0] == 0 then [] else [b[0]] + UpToNul(b[1..])
  }

  /** `string_value`: the C string that an octet sequence holds; an octet
      sequence that is empty or not terminated counts as the empty string. */
  function StringValue(value: OctetSeq): (s: CString)
    ensures value == [] || value[|value| - 1] != 0 ==> s == ""
  {
    if value == [] || value[|value| - 1] != 0 then ""
    else
      var text := UpToNul(value[..|value| - 1]);
      assert |text| < 0xFFFF_FFFF;
      Characters(text)
  }

  lemma {:induction false} UpToNulOfNulFree(b: seq<byte>)
    requires 0 !in b
    ensures UpToNul(b) == b
  {
    if b != [] {
      UpToNulOfNulFree(b[1..]);
    }
  }

  /** Reading a terminated text gives back the text: `string_value` undoes the
      string form of `append`. */
  lemma StringValueOfTerminated(s: CString)
    ensures StringValue(Terminated(s)) == s
  {
    var b := Terminated(s);
    UpToNulOfNulFree(b[..|s|]);
  }

  /** What reads as a given non-empty text: exactly the octet sequences that
      start with its terminated form and end with a NUL. */
  lemma StringValueIsExact(value: OctetSeq, s: CString)
    requires s != ""
    ensures StringValue(value) == s <==>
            Terminated(s) <= value && value[|value| - 1] == 0
  {
    if value != [] && value[|value| - 1] == 0 {
      var body := value[..|value| - 1];
      assert value == body + [0];
      if Terminated(s) <= value {
        UpToNulOfPrefix(Terminated(s)[..|s|], body, |body| > |s|);
      }
      if StringValue(value) == s {
        TextDeterminesOctets(UpToNul(body), s);
        UpToNulStops(body);
      }
    }
  }

  lemma TextDeterminesOctets(r: seq<byte>, s: CString)
    requires Characters(r) == s
    ensures r + [0] == Terminated(s)
  {
    forall i | 0 <= i < |s|
      ensures r[i] == Terminated(s)[i]
    {
      assert Characters(r)[i] == s[i];
    }
  }

  lemma {:induction false} UpToNulOfPrefix(p: seq<byte>, b: seq<byte>, more: bool)
    requires 0 !in p && p <= b
    requires if more then |p| < |b| && b[|p|] == 0 else p == b
    ensures UpToNul(b) == p
  {
    if p != [] {
      UpToNulOfPrefix(p[1..], b[1..], more);
    }
  }

  lemma {:induction false} UpToNulStops(b: seq<byte>)
    ensures var r := UpToNul(b); r < b ==> b[|r|] == 0
  {
    if b != [] && b[0] != 0 {
      UpToNulStops(b[1..]);
    }
  }
}
