/** The three tables of white space: that of names, that of the PowerShell script, and the
    bytes trimmed from event values. */
module WhiteSpace {
  import opened Sse
  import EventBytes
  import Identity
  import Jsonc

  /** A character in UTF-8 (section 3 of RFC 3629). */
  function Utf8(c: char): seq<byte> {
    var n := c as int;
    if n < 0x80 then [n]
    else if n < 0x800 then [0xC0 + n / 64, 0x80 + n % 64]
    else if n < 0x1_0000 then [0xE0 + n / 4096, 0x80 + n / 64 % 64, 0x80 + n % 64]
    else [0xF0 + n / 262144, 0x80 + n / 4096 % 64, 0x80 + n / 64 % 64, 0x80 + n % 64]
  }

  /** Names and the PowerShell script know the same white space; Python's has the four
      separators besides. */
  lemma TablesAgree(c: char)
    ensures Identity.IsSpace(c) <==> Jsonc.NetSpace(c)
    ensures Jsonc.PythonSpace(c) <==> Identity.IsSpace(c) || c in "\U{1C}\U{1D}\U{1E}\U{1F}"
  {
  }

  lemma EncodedSpace(c: char)
    ensures Identity.IsSpace(c) <==> EventBytes.BlankChar(Utf8(c))
  {
  }

  function Decoded(b: seq<byte>): char
    requires EventBytes.BlankChar(b)
  {
    var n: seq<int> := b;
    if |n| == 1 then n[0] as char
    else if |n| == 2 then ((n[0] - 0xC0) * 64 + (n[1] - 0x80)) as char
    else ((n[0] - 0xE0) * 4096 + (n[1] - 0x80) * 64 + (n[2] - 0x80)) as char
  }

  lemma DecodedSpace(b: seq<byte>)
    requires EventBytes.BlankChar(b)
    ensures Utf8(Decoded(b)) == b
  {
  }

  /** The bytes trimmed from a value are the same characters in UTF-8. */
  lemma TrimmedBytesExactly(b: seq<byte>)
    ensures EventBytes.BlankChar(b) <==> exists c :: Identity.IsSpace(c) && b == Utf8(c)
  {
    if EventBytes.BlankChar(b) {
      DecodedSpace(b);
      EncodedSpace(Decoded(b));
    }
    forall c | Identity.IsSpace(c) && b == Utf8(c) ensures EventBytes.BlankChar(b) {
      EncodedSpace(c);
    }
  }
}
