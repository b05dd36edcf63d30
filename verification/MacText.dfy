/**
 MAC addresses and their text form in components/local_network/espnow_manager.c: six bytes printed as
 upper-case hex pairs separated by colons.
 */
module MacText {
  import opened JsonText

  type Octet = n: nat | n < 256

  datatype Mac = Mac(b0: Octet, b1: Octet, b2: Octet, b3: Octet, b4: Octet, b5: Octet)

  function UpperHex(n: nat): char
    requires n < 16
  {
    "0123456789ABCDEF"[n]
  }

  function High(n: Octet): char { UpperHex(n / 16) }
  function Low(n: Octet): char { UpperHex(n % 16) }

  /** mac_to_str */
  function MacString(m: Mac): (s: string)
    ensures |s| == 17
  {
    [High(m.b0), Low(m.b0), ':', High(m.b1), Low(m.b1), ':', High(m.b2), Low(m.b2), ':',
     High(m.b3), Low(m.b3), ':', High(m.b4), Low(m.b4), ':', High(m.b5), Low(m.b5)]
  }

  function HexValue(c: char): nat {
    if '0' <= c <= '9' then c as nat - '0' as nat
    else if 'A' <= c <= 'F' then c as nat - 'A' as nat + 10
    else if 'a' <= c <= 'f' then c as nat - 'a' as nat + 10
    else 0
  }

  function PairValue(s: string, at: nat): Octet
    requires at + 1 < |s|
  {
    (16 * HexValue(s[at]) + HexValue(s[at + 1])) % 256
  }

  /** str_to_mac, on texts of the length mac_to_str prints. */
  function ParseMac(s: string): Mac
    requires |s| == 17
  {
    Mac(PairValue(s, 0), PairValue(s, 3), PairValue(s, 6), PairValue(s, 9), PairValue(s, 12), PairValue(s, 15))
  }

  lemma HexRoundTrip(n: nat)
    requires n < 16
    ensures HexValue(UpperHex(n)) == n
  {
  }

  lemma PairAt(s: string, at: nat, n: Octet)
    requires at + 1 < |s| && s[at] == High(n) && s[at + 1] == Low(n)
    ensures PairValue(s, at) == n
  {
    HexRoundTrip(n / 16);
    HexRoundTrip(n % 16);
  }

  /** An address survives being written into a path and read back for the unicast reply. */
  lemma MacRoundTrip(m: Mac)
    ensures ParseMac(MacString(m)) == m
  {
    hide PairValue, High, Low;
    var s := MacString(m);
    PairAt(s, 0, m.b0);
    PairAt(s, 3, m.b1);
    PairAt(s, 6, m.b2);
    PairAt(s, 9, m.b3);
    PairAt(s, 12, m.b4);
    PairAt(s, 15, m.b5);
  }

  lemma HexIsPlain(n: Octet)
    ensures PlainChar(High(n)) && PlainChar(Low(n))
  {
  }

  lemma MacIsPlain(m: Mac)
    ensures Plain(MacString(m))
  {
    assert PlainChar(':');
    HexIsPlain(m.b0);
    HexIsPlain(m.b1);
    HexIsPlain(m.b2);
    HexIsPlain(m.b3);
    HexIsPlain(m.b4);
    HexIsPlain(m.b5);
    hide High, Low, PlainChar;
    var s := MacString(m);
    forall i | 0 <= i < |s|
      ensures PlainChar(s[i])
    {
    }
  }

  predicate UpperHexDigit(c: char) {
    '0' <= c <= '9' || 'A' <= c <= 'F'
  }

  lemma PairIsUpper(n: Octet)
    ensures UpperHexDigit(High(n)) && UpperHexDigit(Low(n))
  {
  }

  /** An address as text: six pairs of upper-case hex digits, colons between them. */
  lemma MacLayout(m: Mac)
    ensures forall i :: 0 <= i < 17 ==> if i % 3 == 2 then MacString(m)[i] == ':' else UpperHexDigit(MacString(m)[i])
  {
    PairIsUpper(m.b0);
    PairIsUpper(m.b1);
    PairIsUpper(m.b2);
    PairIsUpper(m.b3);
    PairIsUpper(m.b4);
    PairIsUpper(m.b5);
    hide High, Low, UpperHexDigit;
    var s := MacString(m);
    forall i | 0 <= i < 17
      ensures if i % 3 == 2 then s[i] == ':' else UpperHexDigit(s[i])
    {
    }
  }
}
