/** The slot table of the cluster client: the printer of replies (redisInstance_base.cpp) and the parser
    that reads the table back from what was printed (instance_cli.cpp). */
module RedisSlots {
  import opened Wrappers

  // ---------- replies and their text ----------

  datatype Reply =
    | ErrorReply(str: string)
    | StatusReply(str: string)
    | IntegerReply(n: int)
    | StringReply(str: string)
    | NilReply
    | ArrayReply(elements: seq<Reply>)

  function Digit(d: int): char
    requires 0 <= d <= 9
  {
    ('0' as int + d) as char
  }

  function Decimal(n: nat): (s: string)
    ensures s != []
  {
    if n < 10 then [Digit(n)] else Decimal(n / 10) + [Digit(n % 10)]
  }

  function Signed(n: int): string {
    if n < 0 then "-" + Decimal(-n) else Decimal(n)
  }

  function Spaces(n: int): (s: string)
    ensures |s| == if n > 0 then n else 0
    ensures forall i | 0 <= i < |s| :: s[i] == ' '
  {
    if n <= 0 then "" else " " + Spaces(n - 1)
  }

  /** The width of the largest index. */
  function IdxLen(n: nat): (w: nat)
    ensures w >= 1 && (n < 10 <==> w == 1)
  {
    if n < 10 then 1 else 1 + IdxLen(n / 10)
  }

  /** One index, right-aligned, and what follows it. */
  function Index(i: nat, width: nat): string {
    Spaces(width - |Decimal(i + 1)|) + Decimal(i + 1) + ") "
  }

  /** getMsgback_str. */
  function Show(r: Reply, prefix: string): string
    decreases r, if r.ArrayReply? then |r.elements| + 1 else 0
  {
    match r
    case ErrorReply(s) => "(error) " + s + "\n"
    case StatusReply(s) => s + "\n"
    case IntegerReply(n) => "(integer) " + Signed(n) + "\n"
    case StringReply(s) => s + "\n"
    case NilReply => "(nil)\n"
    case ArrayReply(es) =>
      if es == [] then "(empty list or set)\n"
      else
        var width := IdxLen(|es|);
        ShowFrom(r, 0, prefix, prefix + Spaces(width + 2), width)
  }

  /** The elements from i on; only the first follows on the line of its array. */
  function ShowFrom(r: Reply, i: nat, prefix: string, inner: string, width: nat): string
    requires r.ArrayReply? && i <= |r.elements|
    decreases r, |r.elements| - i
  {
    if i == |r.elements| then ""
    else
      (if i == 0 then "" else prefix) + Index(i, width) + Show(r.elements[i], inner)
          + ShowFrom(r, i + 1, prefix, inner, width)
  }

  // ---------- reading lines and numbers ----------

  /** getline: the next line, and what is left of the stream. */
  function GetLine(s: string): (string, string) {
    if s == "" then ("", "")
    else if s[0] == '\n' then ("", s[1..])
    else
      var p := GetLine(s[1..]);
      ([s[0]] + p.0, p.1)
  }

  lemma {:induction false} GetLineLength(s: string)
    ensures var p := GetLine(s); |p.0| + |p.1| <= |s|
  {
    if s != "" && s[0] != '\n' { GetLineLength(s[1..]); }
  }

  lemma {:induction false} GetLineIs(line: string, rest: string)
    requires '\n' !in line
    ensures GetLine(line + "\n" + rest) == (line, rest)
  {
    var s := line + "\n" + rest;
    if line == "" {
      assert s[1..] == rest;
    } else {
      assert s[1..] == line[1..] + "\n" + rest && line[0] in line;
      GetLineIs(line[1..], rest);
      assert [line[0]] + line[1..] == line;
    }
  }

  predicate At(s: string, pat: string, p: int) {
    0 <= p && p + |pat| <= |s| && s[p..p + |pat|] == pat
  }

  /** string::find, from a position on. */
  function Find(s: string, pat: string, from: nat): (r: Option<nat>)
    ensures r.Some? ==> At(s, pat, r.value)
    decreases |s| - from
  {
    if from + |pat| > |s| then None
    else if At(s, pat, from) then Some(from)
    else Find(s, pat, from + 1)
  }

  lemma {:induction false} FindIs(s: string, pat: string, from: nat, p: nat)
    requires pat != "" && At(s, pat, p) && from <= p
    requires forall q | from <= q < p :: s[q] != pat[0]
    ensures Find(s, pat, from) == Some(p)
    decreases p - from
  {
    if from < p {
      assert s[from..from + |pat|][0] == s[from];
      FindIs(s, pat, from + 1, p);
    }
  }

  predicate IsDigit(c: char) { '0' <= c <= '9' }

  function Digits(s: string): int {
    if s == "" || !IsDigit(s[|s| - 1]) then 0 else 10 * Digits(s[..|s| - 1]) + (s[|s| - 1] as int - '0' as int)
  }

  function DigitPrefix(s: string): (n: nat)
    ensures n <= |s|
  {
    if s == "" || !IsDigit(s[0]) then 0 else 1 + DigitPrefix(s[1..])
  }

  /** atoi, without overflow. */
  function Atoi(s: string): int {
    if s == "" then 0
    else if s[0] == ' ' then Atoi(s[1..])
    else if s[0] == '-' then -Digits(s[1..][..DigitPrefix(s[1..])])
    else Digits(s[..DigitPrefix(s)])
  }

  lemma {:induction false} DecimalDigits(n: nat)
    ensures Digits(Decimal(n)) == n && forall c | c in Decimal(n) :: IsDigit(c)
  {
    if n >= 10 {
      DecimalDigits(n / 10);
      var s := Decimal(n);
      assert s[..|s| - 1] == Decimal(n / 10);
    } else {
      assert Decimal(n)[..0] == "";
    }
  }

  lemma {:induction false} AllDigits(s: string)
    requires forall c | c in s :: IsDigit(c)
    ensures DigitPrefix(s) == |s|
  {
    if s != "" {
      assert s[0] in s;
      AllDigits(s[1..]);
    }
  }

  lemma AtoiDecimal(n: nat)
    ensures Atoi(" " + Decimal(n)) == n
  {
    var d := Decimal(n);
    DecimalDigits(n);
    AllDigits(d);
    assert (" " + d)[1..] == d && d[..|d|] == d && d[0] in d;
  }

  /** Every printed integer is read back. */
  lemma AtoiSigned(n: int)
    ensures Atoi(" " + Signed(n)) == n
  {
    if n >= 0 {
      AtoiDecimal(n);
    } else {
      var d := Decimal(-n);
      DecimalDigits(-n);
      AllDigits(d);
      assert (" " + Signed(n))[1..] == Signed(n) && Signed(n)[1..] == d && d[..|d|] == d;
    }
  }

  /** An index is as wide as the largest one if it has as many digits. */
  lemma {:induction false} IdxLenIs(n: nat)
    ensures IdxLen(n) == |Decimal(n)|
  {
    if n >= 10 { IdxLenIs(n / 10); }
  }

  /** The replies that are printed with a mark of their kind. */
  predicate Marked(r: Reply) { r.ErrorReply? || r.IntegerReply? || r.NilReply? || r == ArrayReply([]) }

  function Text(r: Reply): string
    requires Marked(r)
  {
    match r
    case ErrorReply(str) => "(error) " + str
    case IntegerReply(n) => "(integer) " + Signed(n)
    case NilReply => "(nil)"
    case ArrayReply(_) => "(empty list or set)"
  }

  lemma ShowText(r: Reply, prefix: string)
    requires Marked(r)
    ensures Show(r, prefix) == Text(r) + "\n"
  {}

  /** Their texts tell the kind and the value apart. */
  lemma MarkedApart(a: Reply, b: Reply, p: string, q: string)
    requires Marked(a) && Marked(b)
    ensures Show(a, p) == Show(b, q) <==> a == b
  {
    ShowText(a, p);
    ShowText(b, q);
    var s, t := Text(a), Text(b);
    if s + "\n" == t + "\n" {
      assert (s + "\n")[..|s|] == s && (t + "\n")[..|t|] == t;
      assert s[1] == t[1] && s[2] == t[2];
      if a.IntegerReply? {
        AtoiSigned(a.n);
        AtoiSigned(b.n);
        assert s[10..] == Signed(a.n) && t[10..] == Signed(b.n);
      } else if a.ErrorReply? {
        assert s[8..] == a.str && t[8..] == b.str;
      }
    }
    hide Show, Signed, Atoi;
  }

  /** A string or a status is printed as it is, so it can look like any of them. */
  lemma StringsAsTheyAre(str: string, p: string)
    ensures Show(StringReply(str), p) == Show(StatusReply(str), p) == str + "\n"
    ensures Show(StringReply("(nil)"), p) == Show(NilReply, p)
  {}

  // ---------- the slot table ----------

  datatype Sock = Sock(ip: string, port: int)
  datatype SlotsInfo = SlotsInfo(minSlots: int, maxSlots: int, master: Sock, slave: seq<Sock>)

  const INTEGER := "(integer)"

  function IntegerIn(line: string): Option<int> {
    var p := Find(line, INTEGER, 0);
    if p.Some? then Some(Atoi(line[p.value + 9..])) else None
  }

  predicate Indented(line: string, n: nat) {
    n <= |line| && forall i | 0 <= i < n :: line[i] == ' '
  }

  function AddIp(info: SlotsInfo, ip: string): SlotsInfo {
    if info.master.ip == "" then info.(master := info.master.(ip := ip))
    else info.(slave := info.slave + [Sock(ip, 0)])
  }

  function SetPort(info: SlotsInfo, port: int): Option<SlotsInfo> {
    if info.master.port == 0 then Some(info.(master := info.master.(port := port)))
    else if info.slave == [] then None
    else
      var n := |info.slave| - 1;
      Some(info.(slave := info.slave[n := info.slave[n].(port := port)]))
  }

  /** parseSlots from a position of the stream on; None where it does not end or reads outside a line. */
  function Parse(s: string, v: seq<SlotsInfo>): Option<seq<SlotsInfo>>
    decreases |s|
  {
    GetLineLength(s);
    var (line, rest) := GetLine(s);
    if line == "" then Some(v)
    else if line[0] != ' ' then
      GetLineLength(rest);
      var (line2, rest2) := GetLine(rest);
      var min, max := IntegerIn(line), IntegerIn(line2);
      if min.None? || max.None? then None
      else Parse(rest2, v + [SlotsInfo(min.value, max.value, Sock("", 0), [])])
    else if v == [] || !Indented(line, 3) then None
    else
      var n := |v| - 1;
      if !Indented(line, 4) then
        var dot := Find(line, ".", 0);
        if dot.None? || dot.value < 3 then None
        else Parse(rest, v[n := AddIp(v[n], line[dot.value - 3..])])
      else
        var port := IntegerIn(line);
        if port.None? || SetPort(v[n], port.value).None? then None
        else Parse(rest, v[n := SetPort(v[n], port.value).value])
  }

  /** parseSlots. */
  method ParseSlots(strBack: string) returns (r: Option<seq<SlotsInfo>>)
    ensures r == Parse(strBack, [])
  {
    var v: seq<SlotsInfo> := [];
    var s := strBack;
    var (line, ss) := GetLine(s);
    while line != ""
      invariant (line, ss) == GetLine(s) && Parse(strBack, []) == Parse(s, v)
      decreases |line| + |ss|
    {
      var n := |v| - 1;
      if line[0] != ' ' {
        var min := IntegerIn(line);
        GetLineLength(ss);
        var second := GetLine(ss);
        line, ss := second.0, second.1;
        var max := IntegerIn(line);
        if min.None? || max.None? { return None; }
        v := v + [SlotsInfo(min.value, max.value, Sock("", 0), [])];
      } else if v == [] || !Indented(line, 3) {
        return None;
      } else if !Indented(line, 4) {
        var dot := Find(line, ".", 0);
        if dot.None? || dot.value < 3 { return None; }
        v := v[n := AddIp(v[n], line[dot.value - 3..])];
      } else {
        var port := IntegerIn(line);
        if port.None? || SetPort(v[n], port.value).None? { return None; }
        v := v[n := SetPort(v[n], port.value).value];
      }
      s := ss;
      GetLineLength(ss);
      var next := GetLine(ss);
      line, ss := next.0, next.1;
    }
    return Some(v);
  }

  // ---------- the round trip ----------

  function NodeReply(node: Sock): Reply {
    ArrayReply([StringReply(node.ip), IntegerReply(node.port)])
  }

  function Nodes(info: SlotsInfo): seq<Sock> { [info.master] + info.slave }

  /** The reply to CLUSTER SLOTS for a range, and for the whole table. */
  function RangeReply(info: SlotsInfo): Reply {
    ArrayReply([IntegerReply(info.minSlots), IntegerReply(info.maxSlots)]
               + seq(|Nodes(info)|, j requires 0 <= j < |Nodes(info)| => NodeReply(Nodes(info)[j])))
  }

  function TableReply(t: seq<SlotsInfo>): Reply {
    ArrayReply(seq(|t|, i requires 0 <= i < |t| => RangeReply(t[i])))
  }

  /** Text without line ends and brackets, and a port. */
  predicate PlainNode(node: Sock) { '\n' !in node.ip && '(' !in node.ip && node.port >= 0 }

  predicate PlainRange(info: SlotsInfo) {
    0 <= info.minSlots && 0 <= info.maxSlots && forall k | 0 <= k < |Nodes(info)| :: PlainNode(Nodes(info)[k])
  }

  /** At most seven nodes: the elements of the range have indices of one character. */
  predicate Fits(info: SlotsInfo) { |info.slave| <= 6 }

  // What the parser makes of a printed range.

  /** The text that is taken for the address, when its first dot is at k: three characters before it on. */
  function Cut(ip: string, k: nat): string
    requires k <= |ip|
  {
    ("1) " + ip)[k..]
  }

  /** The text that is cut out is the address exactly if its first dot is the fourth character. */
  lemma CutExact(ip: string, k: nat)
    requires k < |ip|
    ensures Cut(ip, k) == ip <==> k == 3
    ensures Cut(ip, k) != ""
  {
    if k == 3 { assert ("1) " + ip)[3..] == ip; } else { assert |Cut(ip, k)| == |ip| + 3 - k; }
  }

  /** The two lines of a node are read into the last range. */
  function ReadNode(info: SlotsInfo, node: Sock): Option<SlotsInfo> {
    var dot := Find(node.ip, ".", 0);
    if dot.None? then None else SetPort(AddIp(info, Cut(node.ip, dot.value)), node.port)
  }

  function ReadNodes(info: SlotsInfo, nodes: seq<Sock>): Option<SlotsInfo>
    decreases |nodes|
  {
    if nodes == [] then Some(info)
    else
      var w := ReadNode(info, nodes[0]);
      if w.None? then None else ReadNodes(w.value, nodes[1..])
  }

  /** A range of which only the first two lines have been read. */
  function Begun(info: SlotsInfo): SlotsInfo {
    SlotsInfo(info.minSlots, info.maxSlots, Sock("", 0), [])
  }

  function ReadRange(info: SlotsInfo): Option<SlotsInfo> {
    if Fits(info) then ReadNodes(Begun(info), Nodes(info)) else None
  }

  function ReadRanges(t: seq<SlotsInfo>, i: nat, v: seq<SlotsInfo>): Option<seq<SlotsInfo>>
    requires i <= |t|
    decreases |t| - i
  {
    if i == |t| then Some(v)
    else
      var w := ReadRange(t[i]);
      if w.None? then None else ReadRanges(t, i + 1, v + [w.value])
  }

  // What is read is the range itself.

  /** The first dot is the fourth character of every address. */
  predicate Dotted(nodes: seq<Sock>) {
    forall j | 0 <= j < |nodes| :: Find(nodes[j].ip, ".", 0) == Some(3)
  }

  predicate NoPorts(nodes: seq<Sock>) {
    forall j | 0 <= j < |nodes| :: nodes[j].port == 0
  }

  /** The ranges that are read back: seven nodes at most, first dots in their place, and a port for the
      master if any slave has one. */
  predicate Readable(info: SlotsInfo) {
    Fits(info) && Dotted(Nodes(info)) && (info.master.port != 0 || NoPorts(info.slave))
  }

  lemma DottedRest(nodes: seq<Sock>)
    requires nodes != []
    ensures Dotted(nodes) <==> Find(nodes[0].ip, ".", 0) == Some(3) && Dotted(nodes[1..])
    ensures NoPorts(nodes) <==> nodes[0].port == 0 && NoPorts(nodes[1..])
  {
    assert forall j | 1 <= j < |nodes| :: nodes[j] == nodes[1..][j - 1];
    assert forall j | 0 <= j < |nodes| - 1 :: nodes[1..][j] == nodes[j + 1];
  }

  /** A slave's lines, once there is a master. */
  lemma SlaveRead(info: SlotsInfo, node: Sock)
    requires info.master.ip != ""
    ensures var w, k := ReadNode(info, node), Find(node.ip, ".", 0);
            && (w.None? <==> k.None?)
            && (w.Some? ==> w.value == info.(master := w.value.master,
                                             slave := info.slave + [w.value.slave[|info.slave|]])
                            && |w.value.slave| == |info.slave| + 1)
            && (w.Some? ==> w.value.slave[|info.slave|].ip == Cut(node.ip, k.value)
                            && w.value.master.ip == info.master.ip)
            && (w.Some? ==> if info.master.port == 0
                            then w.value.master.port == node.port && w.value.slave[|info.slave|].port == 0
                            else w.value.master == info.master && w.value.slave[|info.slave|].port == node.port)
  {
    hide Find;
    if Find(node.ip, ".", 0).Some? {
      var s := Sock(Cut(node.ip, Find(node.ip, ".", 0).value), 0);
      assert (info.slave + [s])[|info.slave| := s.(port := node.port)] == info.slave + [s.(port := node.port)];
    }
  }

  /** Slaves that are read as they were printed. */
  lemma {:induction false} SlavesKept(info: SlotsInfo, nodes: seq<Sock>)
    requires info.master.ip != "" && Dotted(nodes) && (info.master.port != 0 || NoPorts(nodes))
    ensures ReadNodes(info, nodes) == Some(info.(slave := info.slave + nodes))
    decreases |nodes|
  {
    if nodes == [] {
      assert info.slave + [] == info.slave;
    } else {
      var node, w := nodes[0], ReadNode(info, nodes[0]);
      DottedRest(nodes);
      SlaveRead(info, node);
      CutExact(node.ip, 3);
      assert Cut(node.ip, 3) == node.ip && w.value == info.(slave := info.slave + [node]);
      hide ReadNode, Find, Cut, Dotted, NoPorts;
      SlavesKept(w.value, nodes[1..]);
      assert info.slave + [node] + nodes[1..] == info.slave + nodes;
    }
  }

  /** Slaves that are not: an address differs, or the master has got a slave's port. */
  lemma {:induction false} SlavesLost(info: SlotsInfo, nodes: seq<Sock>)
    requires info.master.ip != ""
    ensures var r := ReadNodes(info, nodes);
            r.Some? ==>
              && |r.value.slave| == |info.slave| + |nodes| && info.slave <= r.value.slave
              && r.value.master.ip == info.master.ip
              && (info.master.port != 0 ==> r.value.master.port == info.master.port)
              && (info.master.port == 0 ==> (r.value.master.port == 0 <==> NoPorts(nodes)))
              && (r.value.slave[|info.slave|..] == nodes ==> Dotted(nodes))
    decreases |nodes|
  {
    if nodes != [] {
      var node, w := nodes[0], ReadNode(info, nodes[0]);
      DottedRest(nodes);
      SlaveRead(info, node);
      if w.Some? {
        CutExact(node.ip, Find(node.ip, ".", 0).value);
        SlavesLost(w.value, nodes[1..]);
        var r := ReadNodes(w.value, nodes[1..]);
        hide ReadNode, Find, Cut, Dotted, NoPorts;
        if r.Some? { LostStep(info, nodes, w.value, r.value); }
      }
    }
  }

  lemma LostStep(info: SlotsInfo, nodes: seq<Sock>, w: SlotsInfo, r: SlotsInfo)
    requires nodes != [] && |w.slave| == |info.slave| + 1 && w.slave[..|info.slave|] == info.slave && w.slave <= r.slave
    requires |r.slave| == |w.slave| + |nodes| - 1
    ensures info.slave <= r.slave
    ensures r.slave[|info.slave|..] == nodes ==> w.slave[|info.slave|] == nodes[0] && r.slave[|w.slave|..] == nodes[1..]
  {
    if r.slave[|info.slave|..] == nodes {
      assert r.slave[|w.slave|..] == r.slave[|info.slave|..][1..];
      assert r.slave[|info.slave|..][0] == r.slave[|info.slave|];
    }
  }

  /** A range is read back exactly if it is readable. */
  lemma ReadExact(info: SlotsInfo)
    ensures ReadRange(info) == Some(info) <==> Readable(info)
  {
    var nodes, m := Nodes(info), info.master;
    var k := Find(m.ip, ".", 0);
    assert nodes[0] == m && nodes[1..] == info.slave;
    DottedRest(nodes);
    if Fits(info) && k.Some? {
      CutExact(m.ip, k.value);
      var w := Begun(info).(master := Sock(Cut(m.ip, k.value), m.port));
      assert ReadNode(Begun(info), m) == Some(w);
      assert ReadRange(info) == ReadNodes(w, info.slave);
      SlavesLost(w, info.slave);
      hide ReadNodes, ReadNode, ReadRange, Find, Dotted, NoPorts;
      if k.value == 3 && Dotted(info.slave) && (m.port != 0 || NoPorts(info.slave)) {
        SlavesKept(w, info.slave);
        assert w.slave + info.slave == info.slave;
      }
    }
  }

  lemma OneDigit(i: nat)
    requires i < 9
    ensures Index(i, 1) == [Digit(i + 1)] + ") "
  {}

  // The lines of the printed table.

  function IpLine(node: Sock, i: nat): string
    requires i < 9
  {
    "   " + [Digit(i + 1)] + ") 1) " + node.ip
  }

  function PortLine(node: Sock): string
    requires node.port >= 0
  {
    "      2) (integer) " + Decimal(node.port)
  }

  function MinLine(info: SlotsInfo, i: nat): string
    requires i < 9 && info.minSlots >= 0
  {
    [Digit(i + 1)] + ") 1) (integer) " + Decimal(info.minSlots)
  }

  function MaxLine(info: SlotsInfo): string
    requires info.maxSlots >= 0
  {
    "   2) (integer) " + Decimal(info.maxSlots)
  }

  /** The lines of the nodes, which are elements i and on of their range, and the text that follows. */
  function NodesText(nodes: seq<Sock>, i: nat, rest: string): string
    requires i + |nodes| <= 9 && forall k | 0 <= k < |nodes| :: PlainNode(nodes[k])
  {
    if nodes == [] then rest
    else
      assert PlainNode(nodes[0]);
      IpLine(nodes[0], i) + "\n" + (PortLine(nodes[0]) + "\n" + NodesText(nodes[1..], i + 1, rest))
  }

  lemma ShowStep(r: Reply, i: nat, prefix: string, inner: string, width: nat)
    requires r.ArrayReply? && i < |r.elements|
    ensures ShowFrom(r, i, prefix, inner, width)
              == (if i == 0 then "" else prefix) + Index(i, width) + Show(r.elements[i], inner)
                 + ShowFrom(r, i + 1, prefix, inner, width)
    ensures ShowFrom(r, |r.elements|, prefix, inner, width) == ""
  {
    hide Show, Index;
  }

  lemma ShowNode(node: Sock, rest: string)
    requires node.port >= 0
    ensures Show(NodeReply(node), "      ") + rest == "1) " + node.ip + "\n" + (PortLine(node) + "\n" + rest)
  {
    NodeElements(node);
    hide Show, ShowFrom, NodeReply, PortLine, Decimal;
    NodeText(node.ip, PortLine(node), rest);
  }

  lemma NodeText(ip: string, line: string, rest: string)
    ensures ("" + "1) " + (ip + "\n") + (line + "\n")) + rest == "1) " + ip + "\n" + (line + "\n" + rest)
  {}

  lemma NodeElements(node: Sock)
    requires node.port >= 0
    ensures Show(NodeReply(node), "      ") == "" + "1) " + (node.ip + "\n") + (PortLine(node) + "\n")
  {
    var r, inner := NodeReply(node), "      " + Spaces(3);
    var number := "(integer) " + Decimal(node.port) + "\n";
    assert Show(r.elements[1], inner) == number && Show(r.elements[0], inner) == node.ip + "\n";
    PortLineIs(node);
    hide Show, ShowFrom, PortLine, Decimal, Spaces;
    NodeShown(r, inner, node.ip + "\n", number);
  }

  lemma NodeShown(r: Reply, inner: string, ip: string, port: string)
    requires r.ArrayReply? && |r.elements| == 2 && inner == "      " + Spaces(3)
    requires Show(r.elements[0], inner) == ip && Show(r.elements[1], inner) == port
    ensures Show(r, "      ") == "" + "1) " + ip + ("      " + "2) " + port + "")
  {
    SpacesThree();
    ShowArray(r, "      ", inner);
    ShowNumbered(r, 0, "      ", inner, ip);
    ShowNumbered(r, 1, "      ", inner, port);
    ShowStep(r, 0, "      ", inner, 1);
    hide *;
    Replaced(Show(r, "      "), "" + "1) " + ip, ShowFrom(r, 1, "      ", inner, 1), "      " + "2) " + port + "");
  }

  lemma SpacesThree()
    ensures Spaces(3) == "   "
  {}

  lemma PortLineIs(node: Sock)
    requires node.port >= 0
    ensures PortLine(node) + "\n" == "      " + "2) " + ("(integer) " + Decimal(node.port) + "\n") + ""
  {}

  lemma {:induction false} ShowNodes(info: SlotsInfo, j: nat, rest: string)
    requires PlainRange(info) && Fits(info) && 2 <= j <= |Nodes(info)| + 2
    ensures ShowFrom(RangeReply(info), j, "   ", "      ", 1) + rest == NodesText(Nodes(info)[j - 2..], j, rest)
    decreases |Nodes(info)| + 2 - j
  {
    var r, nodes := RangeReply(info), Nodes(info);
    if j == |nodes| + 2 {
      assert ShowFrom(r, j, "   ", "      ", 1) == "" && nodes[j - 2..] == [];
    } else {
      var node, more := nodes[j - 2], ShowFrom(r, j + 1, "   ", "      ", 1);
      assert PlainNode(node) && nodes[j - 2..][0] == node && nodes[j - 2..][1..] == nodes[j - 1..];
      assert r.elements[j] == NodeReply(node);
      var shown := Show(NodeReply(node), "      ");
      assert ShowFrom(r, j, "   ", "      ", 1) == "   " + Index(j, 1) + shown + more;
      ShowNodes(info, j + 1, rest);
      ShowNode(node, more + rest);
      OneDigit(j);
      NodeLine(node, j, shown, more, rest, PortLine(node) + "\n" + (more + rest));
    }
  }

  lemma NodeLine(node: Sock, j: nat, shown: string, more: string, rest: string, tail: string)
    requires j < 9 && shown + (more + rest) == "1) " + node.ip + "\n" + tail
    ensures ("   " + ([Digit(j + 1)] + ") ") + shown + more) + rest == IpLine(node, j) + "\n" + tail
  {
    var a := "   " + ([Digit(j + 1)] + ") ");
    assert (a + shown + more) + rest == a + (shown + (more + rest));
    assert a + ("1) " + node.ip + "\n" + tail) == IpLine(node, j) + "\n" + tail;
  }

  lemma RangeElements(info: SlotsInfo)
    requires PlainRange(info) && Fits(info)
    ensures var r := RangeReply(info);
            && 3 <= |r.elements| <= 9
            && Show(r.elements[0], "      ") == "(integer) " + Decimal(info.minSlots) + "\n"
            && Show(r.elements[1], "      ") == "(integer) " + Decimal(info.maxSlots) + "\n"
  {}

  lemma RangeShown(r: Reply, min: string, max: string)
    requires r.ArrayReply? && 3 <= |r.elements| <= 9
    requires Show(r.elements[0], "      ") == min && Show(r.elements[1], "      ") == max
    ensures Show(r, "   ") == "" + "1) " + min + ("   " + "2) " + max + ShowFrom(r, 2, "   ", "      ", 1))
  {
    hide *;
    ShowArray(r, "   ", "      ");
    ShowNumbered(r, 0, "   ", "      ", min);
    ShowNumbered(r, 1, "   ", "      ", max);
    var f1, f2 := ShowFrom(r, 1, "   ", "      ", 1), ShowFrom(r, 2, "   ", "      ", 1);
    Replaced(Show(r, "   "), "" + "1) " + min, f1, "   " + "2) " + max + f2);
  }

  lemma Replaced(whole: string, a: string, b: string, c: string)
    requires whole == a + b && b == c
    ensures whole == a + c
  {}

  lemma ShowNumbered(r: Reply, i: nat, prefix: string, inner: string, text: string)
    requires r.ArrayReply? && i < 2 <= |r.elements| && Show(r.elements[i], inner) == text
    ensures ShowFrom(r, i, prefix, inner, 1)
              == (if i == 0 then "" + "1) " else prefix + "2) ") + text + ShowFrom(r, i + 1, prefix, inner, 1)
  {
    OneDigit(i);
    NumberedLine(i);
    ShowStep(r, i, prefix, inner, 1);
    hide *;
  }

  lemma NumberedLine(i: nat)
    requires i < 2
    ensures [Digit(i + 1)] + ") " == if i == 0 then "1) " else "2) "
  {}

  /** A range as element i of the table. */
  lemma ShowRange(info: SlotsInfo, i: nat, rest: string)
    requires PlainRange(info) && Fits(info) && i < 9
    ensures Index(i, 1) + Show(RangeReply(info), "   ") + rest
            == MinLine(info, i) + "\n" + (MaxLine(info) + "\n" + NodesText(Nodes(info), 2, rest))
  {
    var r, min, max := RangeReply(info), Decimal(info.minSlots), Decimal(info.maxSlots);
    RangeElements(info);
    RangeShown(r, "(integer) " + min + "\n", "(integer) " + max + "\n");
    ShowNodes(info, 2, rest);
    OneDigit(i);
    hide RangeReply, Show, ShowFrom, Decimal, NodesText, Index;
    assert Nodes(info)[2 - 2..] == Nodes(info);
    var nodes := ShowFrom(r, 2, "   ", "      ", 1);
    RangeLines(i, min, max, nodes, rest, "   " + "2) " + ("(integer) " + max + "\n") + nodes);
  }

  lemma RangeLines(i: nat, min: string, max: string, nodes: string, rest: string, second: string)
    requires i < 9 && second == "   " + "2) " + ("(integer) " + max + "\n") + nodes
    ensures [Digit(i + 1)] + ") " + ("" + "1) " + ("(integer) " + min + "\n") + second) + rest
            == [Digit(i + 1)] + ") 1) (integer) " + min + "\n" + ("   2) (integer) " + max + "\n" + (nodes + rest))
  {
    assert second + rest == "   2) (integer) " + max + "\n" + (nodes + rest);
    var first := [Digit(i + 1)] + ") 1) (integer) " + min + "\n";
    assert [Digit(i + 1)] + ") " + ("" + "1) " + ("(integer) " + min + "\n") + second) == first + second;
    assert (first + second) + rest == first + (second + rest);
  }

  /** The printed table is the text of its ranges from the first on; each is followed by the rest. */
  lemma ShowTable(t: seq<SlotsInfo>)
    requires 1 <= |t| <= 9
    ensures Show(TableReply(t), "") == RangesFrom(t, 0)
  {
    hide Show, ShowFrom;
    ShowArray(TableReply(t), "", "   ");
  }

  function RangesFrom(t: seq<SlotsInfo>, i: nat): string
    requires i <= |t|
  {
    ShowFrom(TableReply(t), i, "", "   ", 1)
  }

  lemma RangesFromIs(t: seq<SlotsInfo>, i: nat)
    requires i <= |t| <= 9
    ensures i == |t| ==> RangesFrom(t, i) == ""
    ensures i < |t| ==> RangesFrom(t, i) == Index(i, 1) + Show(RangeReply(t[i]), "   ") + RangesFrom(t, i + 1)
  {
    if i < |t| {
      var r := TableReply(t);
      assert r.elements[i] == RangeReply(t[i]) && "" + Index(i, 1) == Index(i, 1);
      hide Show, Index;
      assert ShowFrom(r, i, "", "   ", 1) == "" + Index(i, 1) + Show(r.elements[i], "   ")
          + ShowFrom(r, i + 1, "", "   ", 1);
    }
  }

  /** Up to nine elements have indices of one character. */
  lemma ShowArray(r: Reply, prefix: string, inner: string)
    requires r.ArrayReply? && 1 <= |r.elements| <= 9 && inner == prefix + "   "
    ensures Show(r, prefix) == ShowFrom(r, 0, prefix, inner, 1)
  {
    assert Spaces(3) == "   ";
    hide ShowFrom;
  }

  // Reading the lines back.

  /** The number of a line that has one after some other text. */
  lemma IntegerLine(before: string, n: nat)
    requires '(' !in before && '\n' !in before
    ensures var line := before + "(integer) " + Decimal(n); IntegerIn(line) == Some(n) && '\n' !in line
  {
    AtoiDecimal(n);
    DecimalDigits(n);
    assert '\n' !in Decimal(n) by { assert !IsDigit('\n'); }
    hide Decimal, Digits, IsDigit, Atoi;
    var p, d := |before|, " " + Decimal(n);
    var line := before + "(integer) " + Decimal(n);
    assert line == before + INTEGER + d;
    assert line[p..p + 9] == INTEGER && line[p + 9..] == d;
    forall q | 0 <= q < p ensures line[q] != '(' { assert line[q] == before[q] && before[q] in before; }
    FindIs(line, INTEGER, 0, p);
    hide Find;
    forall c | c in line ensures c != '\n' {
      assert c in before || c in INTEGER || c in d;
    }
  }

  lemma Assoc(a: string, b: string, c: string)
    ensures a + (b + c) == a + b + c
  {}

  lemma IntegerEnd(before: string, n: nat)
    requires '(' !in before && '\n' !in before
    ensures var line := before + ("(integer) " + Decimal(n)); IntegerIn(line) == Some(n) && '\n' !in line
  {
    IntegerLine(before, n);
    Assoc(before, "(integer) ", Decimal(n));
    hide *;
  }

  lemma MinLineIs(info: SlotsInfo, i: nat)
    requires i < 9 && info.minSlots >= 0
    ensures var line := MinLine(info, i);
            IntegerIn(line) == Some(info.minSlots) && '\n' !in line && line != "" && line[0] != ' '
  {
    var before := [Digit(i + 1)] + ") 1) ";
    hide IntegerIn, Decimal;
    IntegerLine(before, info.minSlots);
    assert before + "(integer) " == [Digit(i + 1)] + ") 1) (integer) ";
    assert MinLine(info, i) == before + "(integer) " + Decimal(info.minSlots);
    assert MinLine(info, i)[0] == Digit(i + 1);
  }

  lemma MaxLineIs(info: SlotsInfo)
    requires info.maxSlots >= 0
    ensures IntegerIn(MaxLine(info)) == Some(info.maxSlots) && '\n' !in MaxLine(info)
  {
    hide IntegerIn, Decimal;
    IntegerLine("   2) ", info.maxSlots);
    assert "   2) " + "(integer) " == "   2) (integer) ";
    assert MaxLine(info) == "   2) " + "(integer) " + Decimal(info.maxSlots);
  }

  lemma PortLineRead(node: Sock)
    requires node.port >= 0
    ensures var line := PortLine(node);
            IntegerIn(line) == Some(node.port) && '\n' !in line && Indented(line, 4) && Indented(line, 3)
  {
    hide IntegerIn, Decimal;
    IntegerLine("      2) ", node.port);
    assert "      2) " + "(integer) " == "      2) (integer) ";
    assert PortLine(node) == "      2) " + "(integer) " + Decimal(node.port);
  }

  lemma IpLineIs(node: Sock, i: nat)
    requires i < 9 && PlainNode(node)
    ensures var line := IpLine(node, i); '\n' !in line && Indented(line, 3) && !Indented(line, 4)
    ensures var line, k := IpLine(node, i), Find(node.ip, ".", 0);
            if k.None? then Find(line, ".", 0) == None
            else Find(line, ".", 0) == Some(9 + k.value) && line[6 + k.value..] == Cut(node.ip, k.value)
  {
    var before := "   " + [Digit(i + 1)] + ") 1) ";
    var line := IpLine(node, i);
    assert line == before + node.ip && |before| == 9;
    assert line[3] == Digit(i + 1);
    forall c | c in line ensures c != '\n' { assert c in before || c in node.ip; }
    FindAfter(before, node.ip);
    var k := Find(node.ip, ".", 0);
    if k.Some? { assert line[6 + k.value..] == Cut(node.ip, k.value); }
  }

  /** A first dot that comes after some text without one. */
  lemma FindAfter(before: string, ip: string)
    requires '.' !in before
    ensures var k := Find(ip, ".", 0); Find(before + ip, ".", 0) == if k.None? then None else Some(|before| + k.value)
  {
    var line, k := before + ip, Find(ip, ".", 0);
    FindFirst(ip, 0);
    if k.None? {
      assert '.' !in line;
      FindNone(line, ".", 0);
    } else {
      var p := |before| + k.value;
      assert line[p] == ip[k.value] && line[p..p + 1] == ".";
      forall q | 0 <= q < p ensures line[q] != '.' {
        if q < |before| { assert line[q] in before; } else { assert line[q] == ip[q - |before|]; }
      }
      FindIs(line, ".", 0, p);
    }
  }

  lemma {:induction false} FindFirst(s: string, from: nat)
    requires from <= |s|
    ensures var r := Find(s, ".", from);
            if r.None? then '.' !in s[from..]
            else from <= r.value < |s| && s[r.value] == '.' && forall q | from <= q < r.value :: s[q] != '.'
    decreases |s| - from
  {
    if from < |s| {
      assert s[from..from + 1] == [s[from]] && s[from..] == [s[from]] + s[from + 1..];
      if s[from] == '.' {
        assert At(s, ".", from);
      } else {
        assert !At(s, ".", from);
        FindFirst(s, from + 1);
      }
    }
  }

  /** Parsing goes on after a range, if there is one. */
  function GoOn(w: Option<SlotsInfo>, rest: string, v: seq<SlotsInfo>): Option<seq<SlotsInfo>> {
    if w.None? then None else Parse(rest, v + [w.value])
  }

  /** Two lines of a node are read into the last range. */
  lemma ParseNode(node: Sock, i: nat, rest: string, v: seq<SlotsInfo>, info: SlotsInfo)
    requires i < 9 && PlainNode(node)
    ensures Parse(IpLine(node, i) + "\n" + (PortLine(node) + "\n" + rest), v + [info])
            == GoOn(ReadNode(info, node), rest, v)
  {
    var line, line2, k := IpLine(node, i), PortLine(node), Find(node.ip, ".", 0);
    IpLineIs(node, i);
    PortLineRead(node);
    hide IpLine, PortLine, GetLine, IntegerIn, Find, Indented, AddIp, SetPort, Parse, Cut;
    GetLineIs(line, line2 + "\n" + rest);
    GetLineIs(line2, rest);
    var tail := line2 + "\n" + rest;
    ParseIp(line + "\n" + tail, line, tail, v, info);
    if k.Some? { ParsePort(tail, line2, rest, v, AddIp(info, Cut(node.ip, k.value)), node.port); }
  }

  /** The line of an address is read into the last range. */
  function IpRead(line: string, info: SlotsInfo): Option<SlotsInfo> {
    var dot := Find(line, ".", 0);
    if dot.None? || dot.value < 3 then None else Some(AddIp(info, line[dot.value - 3..]))
  }

  lemma ParseIp(s: string, line: string, rest: string, v: seq<SlotsInfo>, info: SlotsInfo)
    requires GetLine(s) == (line, rest) && Indented(line, 3) && !Indented(line, 4)
    ensures Parse(s, v + [info]) == GoOn(IpRead(line, info), rest, v)
  {
    ParseIndented(s, line, rest, v + [info]);
    hide Parse, GetLine, IntegerIn, Find, Indented, AddIp, SetPort;
    if IpRead(line, info).Some? {
      var w := IpRead(line, info).value;
      assert (v + [info])[|v| := w] == v + [w];
    }
  }

  lemma ParsePort(s: string, line: string, rest: string, v: seq<SlotsInfo>, w: SlotsInfo, port: int)
    requires GetLine(s) == (line, rest) && Indented(line, 4) && Indented(line, 3)
    requires IntegerIn(line) == Some(port)
    ensures Parse(s, v + [w]) == GoOn(SetPort(w, port), rest, v)
  {
    ParseIndented(s, line, rest, v + [w]);
    hide Parse, GetLine, IntegerIn, Find, Indented, AddIp, SetPort;
    if SetPort(w, port).Some? { assert (v + [w])[|v| := SetPort(w, port).value] == v + [SetPort(w, port).value]; }
  }

  /** One step of the parser at an indented line. */
  lemma ParseIndented(s: string, line: string, rest: string, v: seq<SlotsInfo>)
    requires GetLine(s) == (line, rest) && Indented(line, 3) && v != []
    ensures var n := |v| - 1; var dot, port := Find(line, ".", 0), IntegerIn(line);
            Parse(s, v)
              == if !Indented(line, 4) then
                   (if dot.None? || dot.value < 3 then None
                    else Parse(rest, v[n := AddIp(v[n], line[dot.value - 3..])]))
                 else if port.None? || SetPort(v[n], port.value).None? then None
                 else Parse(rest, v[n := SetPort(v[n], port.value).value])
  {
    LineBegins(line);
    GetLineLength(s);
    hide GetLine, IntegerIn, Find, Indented, AddIp, SetPort;
  }

  lemma LineBegins(line: string)
    requires Indented(line, 3)
    ensures line != "" && line[0] == ' '
  {}

  lemma {:induction false} ParseNodes(nodes: seq<Sock>, i: nat, rest: string, v: seq<SlotsInfo>, info: SlotsInfo)
    requires i + |nodes| <= 9 && forall k | 0 <= k < |nodes| :: PlainNode(nodes[k])
    ensures Parse(NodesText(nodes, i, rest), v + [info]) == GoOn(ReadNodes(info, nodes), rest, v)
    decreases |nodes|
  {
    hide Parse, IpLine, PortLine, ReadNode;
    if nodes != [] {
      var w := ReadNode(info, nodes[0]);
      ParseNode(nodes[0], i, NodesText(nodes[1..], i + 1, rest), v, info);
      if w.Some? { ParseNodes(nodes[1..], i + 1, rest, v, w.value); }
    }
  }

  /** Two lines with numbers begin a range. */
  lemma ParseStart(line: string, line2: string, rest: string, v: seq<SlotsInfo>)
    requires line != "" && line[0] != ' ' && IntegerIn(line).Some? && IntegerIn(line2).Some?
    requires GetLine(line + "\n" + (line2 + "\n" + rest)) == (line, line2 + "\n" + rest)
    requires GetLine(line2 + "\n" + rest) == (line2, rest)
    ensures Parse(line + "\n" + (line2 + "\n" + rest), v)
            == Parse(rest, v + [SlotsInfo(IntegerIn(line).value, IntegerIn(line2).value, Sock("", 0), [])])
  {
    hide GetLine, IntegerIn;
  }

  /** The lines of a range become what is read of it. */
  lemma ParseRange(info: SlotsInfo, i: nat, rest: string, v: seq<SlotsInfo>)
    requires i < 9 && PlainRange(info) && Fits(info)
    ensures Parse(MinLine(info, i) + "\n" + (MaxLine(info) + "\n" + NodesText(Nodes(info), 2, rest)), v)
              == GoOn(ReadRange(info), rest, v)
  {
    var tail := NodesText(Nodes(info), 2, rest);
    var line, line2 := MinLine(info, i), MaxLine(info);
    MinLineIs(info, i);
    MaxLineIs(info);
    GetLineIs(line, line2 + "\n" + tail);
    GetLineIs(line2, tail);
    ParseNodes(Nodes(info), 2, rest, v, Begun(info));
    ParseStart(line, line2, tail, v);
    hide Parse, MinLine, MaxLine, NodesText, IntegerIn, GetLine, Nodes, ReadNodes;
  }

  /** A printed range, as element i of a table of at most nine, becomes what is read of it. */
  lemma ParsePrinted(info: SlotsInfo, i: nat, rest: string, v: seq<SlotsInfo>)
    requires i < 9 && PlainRange(info)
    ensures Parse(Index(i, 1) + Show(RangeReply(info), "   ") + rest, v) == GoOn(ReadRange(info), rest, v)
  {
    hide Parse, Show, Index, MinLine, MaxLine, NodesText, ReadNodes;
    if Fits(info) {
      ShowRange(info, i, rest);
      ParseRange(info, i, rest, v);
    } else {
      TooManyNodes(info, i, rest, v);
    }
  }

  lemma {:induction false} ParseRanges(t: seq<SlotsInfo>, i: nat, v: seq<SlotsInfo>)
    requires i <= |t| <= 9 && forall k | 0 <= k < |t| :: PlainRange(t[k])
    ensures Parse(RangesFrom(t, i), v) == ReadRanges(t, i, v)
    decreases |t| - i
  {
    RangesFromIs(t, i);
    ParseEnd(v);
    hide Parse, RangesFrom, Show, Index, ReadRange;
    if i < |t| {
      var w := ReadRange(t[i]);
      ParsePrinted(t[i], i, RangesFrom(t, i + 1), v);
      if w.Some? { ParseRanges(t, i + 1, v + [w.value]); }
    }
  }

  lemma ParseEnd(v: seq<SlotsInfo>)
    ensures Parse("", v) == Some(v)
  {}

  lemma {:induction false} ReadRangesExact(t: seq<SlotsInfo>, i: nat, v: seq<SlotsInfo>)
    requires i <= |t|
    ensures var r := ReadRanges(t, i, v); r.Some? ==> v <= r.value && |r.value| == |v| + |t| - i
    ensures ReadRanges(t, i, v) == Some(v + t[i..]) <==> forall k | i <= k < |t| :: ReadRange(t[k]) == Some(t[k])
    decreases |t| - i
  {
    hide ReadRange;
    if i == |t| {
      assert v + t[i..] == v;
    } else {
      var w := ReadRange(t[i]);
      assert v + t[i..] == v + [t[i]] + t[i + 1..];
      if w.Some? {
        ReadRangesExact(t, i + 1, v + [w.value]);
        var r := ReadRanges(t, i + 1, v + [w.value]);
        if r == Some(v + t[i..]) { assert r.value[|v|] == w.value && (v + t[i..])[|v|] == t[i]; }
      }
    }
  }

  /** What the printer makes of a slot table, the parser reads back, if there are at most nine ranges, all
      of them readable. */
  lemma RoundTrip(t: seq<SlotsInfo>)
    requires 1 <= |t| <= 9 && forall k | 0 <= k < |t| :: PlainRange(t[k]) && Readable(t[k])
    ensures Parse(Show(TableReply(t), ""), []) == Some(t)
  {
    ExactLimits(t);
  }

  // ---------- the limits are needed ----------

  lemma IndexBegins(i: nat, width: nat)
    requires width >= 2 && i < 9
    ensures var s := Index(i, width);
            && |s| == width + 2 && s[0] == ' ' && Indented(s, width - 1) && s[width - 1] == Digit(i + 1)
            && '(' !in s && '\n' !in s
  {
    assert Decimal(i + 1) == [Digit(i + 1)];
  }

  /** From ten ranges on, the wider index indents the first line, and nothing is read. */
  lemma TooManyRanges(t: seq<SlotsInfo>)
    requires |t| >= 10
    ensures Parse(Show(TableReply(t), ""), []) == None
  {
    var r := TableReply(t);
    var width := IdxLen(|t|);
    var text, inner := Show(r, ""), "" + Spaces(width + 2);
    IndexBegins(0, width);
    assert text == ShowFrom(r, 0, "", inner, width)
                == "" + Index(0, width) + Show(r.elements[0], inner) + ShowFrom(r, 1, "", inner, width);
    hide Show, ShowFrom, IdxLen;
    assert text[0] == Index(0, width)[0] == ' ';
    assert GetLine(text).0 != "" && GetLine(text).0[0] == ' ';
  }

  lemma {:induction false} FindNone(s: string, pat: string, from: nat)
    requires pat != "" && forall i | from <= i < |s| :: s[i] != pat[0]
    ensures Find(s, pat, from) == None
    decreases |s| - from
  {
    if from + |pat| <= |s| {
      assert s[from..from + |pat|][0] == s[from];
      FindNone(s, pat, from + 1);
    }
  }

  /** What the lines of a range with more than seven nodes begin with. */
  lemma WideRange(info: SlotsInfo) returns (width: nat, more: string)
    requires PlainRange(info) && !Fits(info)
    ensures width >= 2
    ensures Show(RangeReply(info), "   ")
            == Index(0, width) + ("(integer) " + Decimal(info.minSlots) + "\n")
               + ("   " + Index(1, width) + ("(integer) " + Decimal(info.maxSlots) + "\n")
                  + ("   " + Index(2, width) + ("1) " + info.master.ip + "\n" + more)))
  {
    var r := RangeReply(info);
    width := IdxLen(|r.elements|);
    var inner := "   " + Spaces(width + 2);
    var r2 := NodeReply(info.master);
    assert |r.elements| >= 10 && r.elements[2] == r2 by { assert Nodes(info)[0] == info.master; }
    var rest := ShowFrom(r, 3, "   ", inner, width);
    assert Show(r.elements[0], inner) == "(integer) " + Decimal(info.minSlots) + "\n";
    assert Show(r.elements[1], inner) == "(integer) " + Decimal(info.maxSlots) + "\n";
    var tail := NodeBegins(info.master, inner);
    more := tail + rest;
    ShowStep(r, 0, "   ", inner, width);
    ShowStep(r, 1, "   ", inner, width);
    ShowStep(r, 2, "   ", inner, width);
    assert Show(r, "   ") == ShowFrom(r, 0, "   ", inner, width);
    WideAssoc("   " + Index(2, width), "1) " + info.master.ip + "\n", tail, rest);
    EmptyLeft(Index(0, width));
    hide *;
  }

  lemma WideAssoc(a: string, b: string, c: string, d: string)
    ensures a + (b + c) + d == a + (b + (c + d))
  {}

  lemma EmptyLeft(a: string)
    ensures "" + a == a
  {}

  lemma NodeBegins(node: Sock, inner: string) returns (tail: string)
    requires node.port >= 0
    ensures Show(NodeReply(node), inner) == "1) " + node.ip + "\n" + tail
  {
    var r, inner2 := NodeReply(node), inner + Spaces(3);
    OneDigit(0);
    tail := ShowFrom(r, 1, inner, inner2, 1);
    assert Show(r.elements[0], inner2) == node.ip + "\n";
    assert Show(r, inner) == ShowFrom(r, 0, inner, inner2, 1);
    ShowStep(r, 0, inner, inner2, 1);
    assert [Digit(1)] + ") " == "1) ";
    hide *;
    assert "" + "1) " + (node.ip + "\n") + tail == "1) " + node.ip + "\n" + tail;
  }

  lemma WideLines(i: nat, width: nat, ip: string)
    requires i < 9 && width >= 2 && '(' !in ip && '\n' !in ip
    ensures var first, second := [Digit(i + 1)] + ") " + Index(0, width), "   " + Index(1, width);
            var third := "   " + Index(2, width) + "1) " + ip;
            && '(' !in first && '\n' !in first && '(' !in second && '\n' !in second && '(' !in third && '\n' !in third
            && first[0] != ' ' && Indented(third, 3) && Indented(third, 4)
  {
    IndexBegins(0, width);
    IndexBegins(1, width);
    IndexBegins(2, width);
    var third := "   " + Index(2, width) + "1) " + ip;
    assert third[3] == Index(2, width)[0];
    hide Index;
  }

  /** The wider index indents the first node like a port, and the line has no number. */
  lemma TooManyNodes(info: SlotsInfo, i: nat, rest: string, v: seq<SlotsInfo>)
    requires i < 9 && PlainRange(info) && !Fits(info)
    ensures Parse(Index(i, 1) + Show(RangeReply(info), "   ") + rest, v) == None
  {
    assert PlainNode(info.master) by { assert Nodes(info)[0] == info.master; }
    var width, more := WideRange(info);
    OneDigit(i);
    WideLines(i, width, info.master.ip);
    hide Show, Index, Decimal, Find, GetLine, IntegerIn, Indented, Parse;
    var i0, i1, i2 := Index(0, width), Index(1, width), Index(2, width);
    var first, second, third := [Digit(i + 1)] + ") " + i0, "   " + i1, "   " + i2 + "1) " + info.master.ip;
    IntegerEnd(first, info.minSlots);
    IntegerEnd(second, info.maxSlots);
    NoInteger(third);
    var min, max := "(integer) " + Decimal(info.minSlots), "(integer) " + Decimal(info.maxSlots);
    WideText(i, i0, i1, i2, min, max, info.master.ip, more, rest);
    ParseWide(first + min, second + max, third, more + rest, v);
  }

  lemma NoInteger(line: string)
    requires '(' !in line
    ensures IntegerIn(line) == None
  {
    FindNone(line, INTEGER, 0);
  }

  lemma ParseWide(line: string, line2: string, third: string, tail: string, v: seq<SlotsInfo>)
    requires line != "" && line[0] != ' ' && '\n' !in line && IntegerIn(line).Some?
    requires '\n' !in line2 && IntegerIn(line2).Some?
    requires Indented(third, 3) && Indented(third, 4) && IntegerIn(third) == None && '\n' !in third
    ensures Parse(line + "\n" + (line2 + "\n" + (third + "\n" + tail)), v) == None
  {
    hide Parse, GetLine, IntegerIn, Indented;
    var rest := third + "\n" + tail;
    GetLineIs(line, line2 + "\n" + rest);
    GetLineIs(line2, rest);
    GetLineIs(third, tail);
    ParseStart(line, line2, rest, v);
    ParseStuck(third, tail, v + [SlotsInfo(IntegerIn(line).value, IntegerIn(line2).value, Sock("", 0), [])]);
  }

  lemma WideText(i: nat, i0: string, i1: string, i2: string, min: string, max: string, ip: string, more: string,
                 rest: string)
    requires i < 9
    ensures ([Digit(i + 1)] + ") ") + (i0 + (min + "\n") + ("   " + i1 + (max + "\n")
            + ("   " + i2 + ("1) " + ip + "\n" + more)))) + rest
            == ([Digit(i + 1)] + ") " + i0 + min) + "\n" + (("   " + i1 + max) + "\n"
                + (("   " + i2 + "1) " + ip) + "\n" + (more + rest)))
  {
    var d, c, b := [Digit(i + 1)] + ") ", "   " + i2 + ("1) " + ip + "\n" + more), "   " + i1 + (max + "\n");
    assert c + rest == ("   " + i2 + "1) " + ip) + "\n" + (more + rest);
    assert b + c + rest == ("   " + i1 + max) + "\n" + (c + rest);
    assert d + (i0 + (min + "\n") + (b + c)) + rest == (d + i0 + min) + "\n" + (b + c + rest);
  }

  /** A line indented like a port but without a number stops the parser. */
  lemma ParseStuck(line: string, rest: string, v: seq<SlotsInfo>)
    requires GetLine(line + "\n" + rest) == (line, rest) && Indented(line, 3) && Indented(line, 4)
             && IntegerIn(line) == None
    ensures Parse(line + "\n" + rest, v) == None
  {
    LineBegins(line);
    hide GetLine, IntegerIn, Find, Indented, AddIp, SetPort;
  }

  lemma EmptyTable()
    ensures Parse(Show(TableReply([]), ""), []) == None
  {
    var rest := "empty list or set)";
    var line := "(" + rest;
    assert Show(TableReply([]), "") == "(empty list or set)\n" == line + "\n" + "";
    assert '(' !in rest && '\n' !in rest && rest[0] == 'e';
    hide Show, TableReply;
    StartsEmpty(line, rest);
  }

  lemma StartsEmpty(line: string, rest: string)
    requires line == "(" + rest && rest != "" && rest[0] != 'i' && '(' !in rest && '\n' !in rest
    ensures Parse(line + "\n" + "", []) == None
  {
    GetLineIs(line, "");
    FindBracket(line, rest);
    hide GetLine, Find;
  }

  lemma FindBracket(line: string, rest: string)
    requires line == "(" + rest && rest != "" && rest[0] != 'i' && '(' !in rest
    ensures Find(line, INTEGER, 0) == None
  {
    if 9 <= |line| { assert line[0..9][1] == rest[0]; }
    forall i | 1 <= i < |line| ensures line[i] != '(' { assert line[i] == rest[i - 1]; }
    FindNone(line, INTEGER, 1);
  }

  /** The exact limits: a table is read back if and only if it has one to nine ranges, none of them with
      more than seven nodes, every address has its first dot as its fourth character, and no master without
      a port has a slave with one. */
  lemma ExactLimits(t: seq<SlotsInfo>)
    requires forall k | 0 <= k < |t| :: PlainRange(t[k])
    ensures Parse(Show(TableReply(t), ""), []) == Some(t) <==>
              1 <= |t| <= 9 && forall k | 0 <= k < |t| :: Readable(t[k])
  {
    hide Parse, Show, ReadRange, Readable, RangesFrom;
    if t == [] {
      EmptyTable();
    } else if |t| >= 10 {
      TooManyRanges(t);
    } else {
      ShowTable(t);
      ParseRanges(t, 0, []);
      ReadRangesExact(t, 0, []);
      assert [] + t[0..] == t;
      forall k | 0 <= k < |t| ensures ReadRange(t[k]) == Some(t[k]) <==> Readable(t[k]) { ReadExact(t[k]); }
    }
  }
}
