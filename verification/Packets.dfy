/**
 The two pathfinding packets of components/local_network/espnow_manager.c: their exact printed form,
 the 250-byte cut on sending, and which packets survive it.
 */
module Packets {
  import opened JsonText
  import opened MacText

  const PACKET_MAX: nat := 250
  const ID_LENGTH: nat := 9

  datatype Packet =
    | Req(id: string, dst: string, src: Mac, ttl: nat, hop: nat, path: seq<Mac>)
    | Ack(id: string, dst: string, path: seq<Mac>)

  function Digit(n: nat): char
    requires n < 10
  {
    "0123456789"[n]
  }

  function Decimal(n: nat): string {
    if n < 10 then [Digit(n)] else Decimal(n / 10) + [Digit(n % 10)]
  }

  /** `%05lu` for a number below 100000. */
  function FiveDigits(n: nat): string {
    [Digit(n / 10000 % 10), Digit(n / 1000 % 10), Digit(n / 100 % 10), Digit(n / 10 % 10), Digit(n % 10)]
  }

  /** The id of a flood: the first two bytes of the originator's address and the tick count. */
  function MessageId(origin: Mac, tick: nat): (id: string)
    ensures |id| == ID_LENGTH
  {
    var mac := MacString(origin);
    [mac[0], mac[1], mac[3], mac[4]] + FiveDigits(tick % 100000)
  }

  function PathItems(path: seq<Mac>): (r: seq<Json>)
    ensures |r| == |path|
  {
    seq(|path|, i requires 0 <= i < |path| => Text(MacString(path[i])))
  }

  function Members(p: Packet): seq<Member> {
    match p
    case Req(id, dst, src, ttl, hop, path) =>
      [Member("t", Number("0")), Member("id", Text(id)), Member("dst", Text(dst)), Member("src", Text(MacString(src))),
       Member("ttl", Number(Decimal(ttl))), Member("hop", Number(Decimal(hop))), Member("path", Array(PathItems(path)))]
    case Ack(id, dst, path) =>
      [Member("t", Number("1")), Member("id", Text(id)), Member("dst", Text(dst)), Member("found", Bool(true)),
       Member("path", Array(PathItems(path)))]
  }

  /** The packet as cJSON_PrintUnformatted writes it. */
  function PacketText(p: Packet): string {
    Print(Object(Members(p)))
  }

  /** What espnow_send_raw puts on the air. */
  function OnAir(p: Packet): (data: string)
    ensures |data| <= PACKET_MAX
  {
    var text := PacketText(p);
    if |text| > PACKET_MAX then text[..PACKET_MAX] else text
  }

  /** The receiver's parser gets a closed object, hence the packet that was printed. */
  predicate Arrives(p: Packet) {
    ClosesObject(OnAir(p))
  }

  // ---------------------------------------------------------------- sizes

  lemma {:induction false} DecimalIsPlain(n: nat)
    ensures Plain(Decimal(n))
  {
    if n >= 10 {
      DecimalIsPlain(n / 10);
    }
  }

  lemma PacketNumbersArePlain(p: Packet)
    ensures PlainNumbers(Object(Members(p)))
  {
    hide Decimal, MacString;
    if p.Req? {
      DecimalIsPlain(p.ttl);
      DecimalIsPlain(p.hop);
    }
    assert forall i <- PathItems(p.path) :: PlainNumbers(i);
    assert PlainNumbers(Array(PathItems(p.path)));
  }

  /** A packet is received exactly when its text fits into 250 bytes: what is cut never parses. */
  lemma ArrivesIffFits(p: Packet)
    ensures Arrives(p) <==> |PacketText(p)| <= PACKET_MAX
  {
    hide *;
    var text := PacketText(p);
    PacketNumbersArePlain(p);
    var n := if |text| > PACKET_MAX then PACKET_MAX else |text|;
    assert text[..|text|] == text;
    OnAirIsPrefix(p, n);
    PrefixClosesIffWhole(Members(p), n);
  }

  lemma OnAirIsPrefix(p: Packet, n: nat)
    requires n == if |PacketText(p)| > PACKET_MAX then PACKET_MAX else |PacketText(p)|
    ensures PacketText(p) == Print(Object(Members(p)))
    ensures Arrives(p) <==> ClosesObject(PacketText(p)[..n])
    ensures PACKET_MAX == 250
  {
    hide Members, Print, ClosesObject;
    assert PacketText(p)[..|PacketText(p)|] == PacketText(p);
  }

  /** Printed length of a member list, member by member. */
  lemma MembersLength(members: seq<Member>)
    requires members != []
    ensures |PrintMembers(members)| ==
            |PrintMember(members[0])| + if |members| == 1 then 0 else 1 + |PrintMembers(members[1..])|
  {
  }

  lemma MemberLength(m: Member)
    requires Plain(m.key)
    ensures |PrintMember(m)| == |m.key| + 3 + |Print(m.value)|
  {
    EscapeOfPlain(m.key);
  }

  lemma MacItemLength(m: Mac)
    ensures |Print(Text(MacString(m)))| == 19
  {
    MacIsPlain(m);
    EscapeOfPlain(MacString(m));
  }

  lemma {:induction false} PathLength(path: seq<Mac>)
    requires path != []
    ensures |PrintItems(PathItems(path))| == 20 * |path| - 1
  {
    hide MacString;
    MacItemLength(path[0]);
    if |path| > 1 {
      assert PathItems(path)[1..] == PathItems(path[1..]);
      PathLength(path[1..]);
    }
  }

  /** Length of the members from the `k`-th on. */
  lemma {:induction false} TailLength(members: seq<Member>, k: nat)
    requires k < |members|
    ensures |PrintMembers(members[k..])| ==
            |PrintMember(members[k])| + if k == |members| - 1 then 0 else 1 + |PrintMembers(members[k + 1..])|
  {
    MembersLength(members[k..]);
    assert members[k..][1..] == members[k + 1..];
  }

  lemma KeysArePlain()
    ensures Plain("t") && Plain("id") && Plain("dst") && Plain("src") && Plain("ttl") && Plain("hop")
    ensures Plain("path") && Plain("found")
  {
  }

  lemma TextLength(s: string)
    ensures |Print(Text(s))| == |Escape(s)| + 2
  {
  }

  lemma PathMemberLength(path: seq<Mac>)
    requires path != []
    ensures |Print(Array(PathItems(path)))| == 20 * |path| + 1
  {
    PathLength(path);
  }

  lemma SevenMembers(ms: seq<Member>)
    requires |ms| == 7
    ensures |PrintMembers(ms)| ==
            |PrintMember(ms[0])| + |PrintMember(ms[1])| + |PrintMember(ms[2])| + |PrintMember(ms[3])|
            + |PrintMember(ms[4])| + |PrintMember(ms[5])| + |PrintMember(ms[6])| + 6
  {
    hide *;
    assert ms[0..] == ms;
    TailLength(ms, 0);
    TailLength(ms, 1);
    TailLength(ms, 2);
    TailLength(ms, 3);
    TailLength(ms, 4);
    TailLength(ms, 5);
    TailLength(ms, 6);
  }

  lemma ReqMemberLengths(p: Packet)
    requires p.Req? && |Escape(p.id)| == ID_LENGTH && p.ttl < 10 && p.hop < 10 && p.path != []
    ensures var ms := Members(p);
            && |ms| == 7 && |PrintMember(ms[0])| == 5 && |PrintMember(ms[1])| == 16
            && |PrintMember(ms[2])| == 8 + |Escape(p.dst)| && |PrintMember(ms[3])| == 25
            && |PrintMember(ms[4])| == 7 && |PrintMember(ms[5])| == 7
            && |PrintMember(ms[6])| == 8 + 20 * |p.path|
  {
    KeysArePlain();
    PathMemberLength(p.path);
    MacItemLength(p.src);
    TextLength(p.id);
    TextLength(p.dst);
    assert |Print(Number(Decimal(p.ttl)))| == 1 && |Print(Number(Decimal(p.hop)))| == 1 && |Print(Number("0"))| == 1;
    IdLengthIsNine();
    ReqMembers(p);
    hide *;
    var ms := Members(p);
    MemberLength(ms[0]);
    MemberLength(ms[1]);
    MemberLength(ms[2]);
    MemberLength(ms[3]);
    MemberLength(ms[4]);
    MemberLength(ms[5]);
    MemberLength(ms[6]);
  }

  /** The text of a REQ with a nine-character id and one-digit counters. */
  lemma ReqLength(p: Packet)
    requires p.Req? && |Escape(p.id)| == ID_LENGTH && p.ttl < 10 && p.hop < 10 && p.path != []
    ensures |PacketText(p)| == 84 + |Escape(p.dst)| + 20 * |p.path|
  {
    ReqMemberLengths(p);
    SevenMembers(Members(p));
  }

  lemma MessageIdIsPlain(origin: Mac, tick: nat)
    ensures |Escape(MessageId(origin, tick))| == ID_LENGTH
  {
    var id := MessageId(origin, tick);
    MacIsPlain(origin);
    assert Plain(FiveDigits(tick % 100000));
    assert Plain(id) by {
      forall i | 0 <= i < |id|
        ensures PlainChar(id[i])
      {
        if i >= 4 {
          assert id[i] == FiveDigits(tick % 100000)[i - 4];
        } else {
          assert id[i] == MacString(origin)[if i < 2 then i else i + 1];
        }
      }
    }
    EscapeOfPlain(id);
  }

  lemma IdLengthIsNine()
    ensures ID_LENGTH == 9
  {
  }

  lemma ReqMembers(p: Packet)
    requires p.Req?
    ensures var ms := Members(p);
            && |ms| == 7 && ms[0] == Member("t", Number("0")) && ms[1] == Member("id", Text(p.id))
            && ms[2] == Member("dst", Text(p.dst)) && ms[3] == Member("src", Text(MacString(p.src)))
            && ms[4] == Member("ttl", Number(Decimal(p.ttl))) && ms[5] == Member("hop", Number(Decimal(p.hop)))
            && ms[6] == Member("path", Array(PathItems(p.path)))
  {
  }

  // ---------------------------------------------------------------- numbers and ids read back

  function DigitValue(c: char): nat {
    if '0' <= c <= '9' then c as nat - '0' as nat else 0
  }

  /** A decimal number read from its digits. */
  function NumberValue(s: string): nat {
    if s == "" then 0 else 10 * NumberValue(s[..|s| - 1]) + DigitValue(s[|s| - 1])
  }

  lemma DigitReadsBack(n: nat)
    requires n < 10
    ensures DigitValue(Digit(n)) == n && '0' <= Digit(n) <= '9'
  {
  }

  lemma {:induction false} DecimalReadsBack(n: nat)
    ensures NumberValue(Decimal(n)) == n
  {
    DigitReadsBack(n % 10);
    if n >= 10 {
      DecimalReadsBack(n / 10);
      assert Decimal(n)[..|Decimal(n)| - 1] == Decimal(n / 10);
    } else {
      assert Decimal(n)[..0] == "";
    }
  }

  lemma NumberGrows(s: string, c: char)
    ensures NumberValue(s + [c]) == 10 * NumberValue(s) + DigitValue(c)
  {
    assert (s + [c])[..|s|] == s;
  }

  /** The five digits are the number itself, leading zeros included. */
  lemma FiveDigitsReadBack(n: nat)
    requires n < 100000
    ensures NumberValue(FiveDigits(n)) == n
  {
    Horner(Digit(n / 10000 % 10), Digit(n / 1000 % 10), Digit(n / 100 % 10), Digit(n / 10 % 10), Digit(n % 10));
    DigitReadsBack(n / 10000 % 10);
    DigitReadsBack(n / 1000 % 10);
    DigitReadsBack(n / 100 % 10);
    DigitReadsBack(n / 10 % 10);
    DigitReadsBack(n % 10);
    hide Digit, DigitValue, NumberValue;
    FiveDigitSum(n);
  }

  lemma FiveDigitSum(n: nat)
    requires n < 100000
    ensures 10000 * (n / 10000 % 10) + 1000 * (n / 1000 % 10) + 100 * (n / 100 % 10) + 10 * (n / 10 % 10) + n % 10 == n
  {
    var n1 := n / 10;
    var n2 := n1 / 10;
    var n3 := n2 / 10;
    var n4 := n3 / 10;
    assert n / 100 == n2 && n / 1000 == n3 && n / 10000 == n4 && n4 < 10;
  }

  lemma Horner(a: char, b: char, c: char, d: char, e: char)
    ensures NumberValue([a, b, c, d, e]) == 10000 * DigitValue(a) + 1000 * DigitValue(b) + 100 * DigitValue(c)
                                            + 10 * DigitValue(d) + DigitValue(e)
  {
    hide DigitValue;
    assert [a, b, c, d, e] == [] + [a] + [b] + [c] + [d] + [e];
    NumberGrows([], a);
    NumberGrows([] + [a], b);
    NumberGrows([] + [a] + [b], c);
    NumberGrows([] + [a] + [b] + [c], d);
    NumberGrows([] + [a] + [b] + [c] + [d], e);
    assert NumberValue([]) == 0;
    hide NumberValue;
  }

  /** An id tells the tick modulo 100000, and the first two bytes of the originator's address. */
  lemma MessageIdReadsBack(origin: Mac, tick: nat)
    ensures NumberValue(MessageId(origin, tick)[4..]) == tick % 100000
    ensures PairValue(MessageId(origin, tick), 0) == origin.b0 && PairValue(MessageId(origin, tick), 2) == origin.b1
  {
    var id := MessageId(origin, tick);
    FiveDigitsReadBack(tick % 100000);
    assert id[4..] == FiveDigits(tick % 100000);
    hide FiveDigits, NumberValue, High, Low, PairValue;
    PairAt(id, 0, origin.b0);
    PairAt(id, 2, origin.b1);
  }

  /** Two floods have the same id exactly if these two bytes agree and the ticks agree modulo 100000. */
  lemma SameIdIff(a: Mac, m: nat, b: Mac, n: nat)
    ensures MessageId(a, m) == MessageId(b, n) <==> a.b0 == b.b0 && a.b1 == b.b1 && m % 100000 == n % 100000
  {
    MessageIdReadsBack(a, m);
    MessageIdReadsBack(b, n);
    hide FiveDigits, NumberValue, High, Low, PairValue;
  }

  // ---------------------------------------------------------------- the packets spelt out

  function PathText(path: seq<Mac>): string {
    "[" + PrintItems(PathItems(path)) + "]"
  }

  /** The fields of a REQ: its type, and the others in this order under these names. */
  function ReqFields(p: Packet): seq<string>
    requires p.Req?
  {
    [Named("t", "0"), Named("id", Quote(p.id)), Named("dst", Quote(p.dst)), Named("src", Quote(MacString(p.src))),
     Named("ttl", Decimal(p.ttl)), Named("hop", Decimal(p.hop)), Named("path", PathText(p.path))]
  }

  /** The text of a REQ. */
  lemma ReqText(p: Packet)
    requires p.Req?
    ensures PacketText(p) == "{" + Commas(ReqFields(p)) + "}"
  {
    var ms := Members(p);
    ReqMemberTexts(p, ms);
    FieldsMatch(p, ms);
    hide *;
    TextOfMembers(p);
    ObjectText(ms);
    MembersAreCommas(ms, ReqFields(p));
  }

  lemma FieldsMatch(p: Packet, ms: seq<Member>)
    requires p.Req? && ms == Members(p)
    ensures |ReqFields(p)| == |ms| && forall i :: 0 <= i < |ms| ==> PrintMember(ms[i]) == ReqFields(p)[i]
  {
    hide PrintMember, Members, Named, Quote, Decimal, MacString, PathText;
    ReqMemberTexts(p, ms);
    var fields := ReqFields(p);
    assert fields[0] == Named("t", "0") && fields[1] == Named("id", Quote(p.id));
    assert fields[2] == Named("dst", Quote(p.dst));
    assert fields[3] == Named("src", Quote(MacString(p.src))) && fields[4] == Named("ttl", Decimal(p.ttl));
    assert fields[5] == Named("hop", Decimal(p.hop)) && fields[6] == Named("path", PathText(p.path)) && |fields| == 7;
    hide ReqFields;
  }

  lemma ReqMemberTexts(p: Packet, ms: seq<Member>)
    requires p.Req? && ms == Members(p)
    ensures |ms| == 7
    ensures PrintMember(ms[0]) == Named("t", "0") && PrintMember(ms[1]) == Named("id", Quote(p.id))
    ensures PrintMember(ms[2]) == Named("dst", Quote(p.dst))
    ensures PrintMember(ms[3]) == Named("src", Quote(MacString(p.src)))
    ensures PrintMember(ms[4]) == Named("ttl", Decimal(p.ttl)) && PrintMember(ms[5]) == Named("hop", Decimal(p.hop))
    ensures PrintMember(ms[6]) == Named("path", PathText(p.path))
  {
    KeysArePlain();
    ReqMembers(p);
    PrintLeaf(p);
    hide *;
    MemberText("t", ms[0].value);
    MemberText("id", ms[1].value);
    MemberText("dst", ms[2].value);
    MemberText("src", ms[3].value);
    MemberText("ttl", ms[4].value);
    MemberText("hop", ms[5].value);
    MemberText("path", ms[6].value);
  }

  lemma TextOfMembers(p: Packet)
    ensures PacketText(p) == Print(Object(Members(p)))
  {
  }

  lemma PrintLeaf(p: Packet)
    ensures Print(Number("0")) == "0" && Print(Number("1")) == "1" && Print(Bool(true)) == "true"
    ensures Print(Text(p.id)) == Quote(p.id) && Print(Text(p.dst)) == Quote(p.dst)
    ensures Print(Array(PathItems(p.path))) == PathText(p.path)
    ensures p.Req? ==> Print(Text(MacString(p.src))) == Quote(MacString(p.src))
    ensures p.Req? ==> Print(Number(Decimal(p.ttl))) == Decimal(p.ttl)
    ensures p.Req? ==> Print(Number(Decimal(p.hop))) == Decimal(p.hop)
  {
  }

  lemma AckMembers(p: Packet)
    requires p.Ack?
    ensures var ms := Members(p);
            && |ms| == 5 && ms[0] == Member("t", Number("1")) && ms[1] == Member("id", Text(p.id))
            && ms[2] == Member("dst", Text(p.dst)) && ms[3] == Member("found", Bool(true))
            && ms[4] == Member("path", Array(PathItems(p.path)))
  {
  }

  /** The text of an ACK. */
  lemma AckText(p: Packet)
    requires p.Ack?
    ensures PacketText(p) ==
            "{" + Commas([Named("t", "1"), Named("id", Quote(p.id)), Named("dst", Quote(p.dst)), Named("found", "true"),
                          Named("path", PathText(p.path))]) + "}"
  {
    KeysArePlain();
    AckMembers(p);
    PrintLeaf(p);
    var ms := Members(p);
    assert Print(Object(ms)) == "{" + PrintMembers(ms) + "}";
    hide *;
    MemberText("t", ms[0].value);
    MemberText("id", ms[1].value);
    MemberText("dst", ms[2].value);
    MemberText("found", ms[3].value);
    MemberText("path", ms[4].value);
    MembersAreCommas(ms, [Named("t", "1"), Named("id", Quote(p.id)), Named("dst", Quote(p.dst)), Named("found", "true"),
                          Named("path", PathText(p.path))]);
    assert PacketText(p) == Print(Object(ms)) by { TextOfMembers(p); }
  }

  /** The items of a path: each address quoted, in order. */
  lemma {:induction false} PathIsCommas(path: seq<Mac>, texts: seq<string>)
    requires |path| == |texts| && forall i :: 0 <= i < |path| ==> texts[i] == "\"" + MacString(path[i]) + "\""
    ensures PrintItems(PathItems(path)) == Commas(texts)
  {
    hide MacString;
    if path != [] {
      MacIsPlain(path[0]);
      EscapeOfPlain(MacString(path[0]));
      assert Print(Text(MacString(path[0]))) == texts[0];
      if |path| > 1 {
        assert PathItems(path)[1..] == PathItems(path[1..]);
        PathIsCommas(path[1..], texts[1..]);
      }
    }
  }
}
