/** Rules as lines of text, `target,target,...|name|port`: printing, and parsing with an error per bad line. */
module RuleTxt {
  import opened Prelude

  datatype Target = Target(host: string, port: int)

  datatype RuleItem = RuleItem(
    name: string, protocol: string, listenIp: string, listenPort: int,
    targetHost: string, targetPort: int, enabled: bool, nodeName: string,
    tunnelName: Option<string>, bandwidthProfileName: Option<string>, ownerUsername: Option<string>,
    extraTargets: Option<seq<Target>>, lbStrategy: string)

  /** What the dialog adds to every line. */
  datatype Options = Options(nodeName: string, protocol: string)

  /** Number of the line, counted from one, and what is wrong with it. */
  datatype LineError =
    | BadFormat(line: nat)
    | EmptyName(line: nat)
    | BadPort(line: nat)
    | NoTargets(line: nat)
    | BadTarget(line: nat, address: string)

  // ---------- strings ----------

  /** White space and line ends as `trim` of the language knows them. */
  predicate IsSpace(c: char) {
    '\t' <= c <= '\r' || c == ' ' || c == '\U{00A0}' || c == '\U{1680}' || '\U{2000}' <= c <= '\U{200A}'
    || c == '\U{2028}' || c == '\U{2029}' || c == '\U{202F}' || c == '\U{205F}' || c == '\U{3000}' || c == '\U{FEFF}'
  }

  function TrimStart(s: string): string {
    if s != "" && IsSpace(s[0]) then TrimStart(s[1..]) else s
  }

  function TrimEnd(s: string): string {
    if s != "" && IsSpace(s[|s| - 1]) then TrimEnd(s[..|s| - 1]) else s
  }

  function Trim(s: string): string {
    TrimEnd(TrimStart(s))
  }

  /** The pieces between separators; there is always at least one. */
  function Split(s: string, sep: char): (r: seq<string>)
    ensures |r| >= 1
  {
    if s == "" then [""]
    else if s[0] == sep then [""] + Split(s[1..], sep)
    else
      var r := Split(s[1..], sep);
      [[s[0]] + r[0]] + r[1..]
  }

  function Join(parts: seq<string>, sep: char): string {
    if parts == [] then ""
    else if |parts| == 1 then parts[0]
    else parts[0] + [sep] + Join(parts[1..], sep)
  }

  function LastIndexOf(s: string, c: char): int {
    if s == "" then -1
    else if s[|s| - 1] == c then |s| - 1
    else LastIndexOf(s[..|s| - 1], c)
  }

  predicate IsDigit(c: char) { '0' <= c <= '9' }

  predicate AllDigits(s: string) { forall i :: 0 <= i < |s| ==> IsDigit(s[i]) }

  function ValueOf(s: string): nat
    requires AllDigits(s)
  {
    if s == "" then 0 else 10 * ValueOf(s[..|s| - 1]) + (s[|s| - 1] as int - '0' as int)
  }

  function Decimal(n: nat): string {
    if n < 10 then [('0' as int + n) as char] else Decimal(n / 10) + [('0' as int + n % 10) as char]
  }

  /** The language's other ways to write a number (signs, exponents, hexadecimal, ...) as far as they give integers. */
  type Spellings = string -> Option<int>

  /** A string as an integer: plain decimals and the empty string (zero) here, anything else as the language has it. */
  function Number(s: string, other: Spellings): Option<int> {
    if AllDigits(s) then Some(ValueOf(s)) else other(s)
  }

  predicate IsPort(n: Option<int>) {
    n.Some? && 1 <= n.value <= 65535
  }

  // ---------- printing ----------

  function TargetsOf(it: RuleItem): seq<Target> {
    [Target(it.targetHost, it.targetPort)] + it.extraTargets.GetOr([])
  }

  /** An integer as the template prints it. */
  function Shown(n: int): string {
    if n < 0 then "-" + Decimal(-n) else Decimal(n)
  }

  function PrintTarget(t: Target): string {
    t.host + ":" + Shown(t.port)
  }

  function PrintTargets(ts: seq<Target>): seq<string> {
    seq(|ts|, i requires 0 <= i < |ts| => PrintTarget(ts[i]))
  }

  function PrintRule(it: RuleItem): string {
    Join(PrintTargets(TargetsOf(it)), ',') + "|" + it.name + "|" + Shown(it.listenPort)
  }

  function PrintAll(items: seq<RuleItem>): (lines: seq<string>)
    ensures |lines| == |items|
  {
    if items == [] then [] else PrintAll(items[..|items| - 1]) + [PrintRule(items[|items| - 1])]
  }

  lemma {:induction false} PrintedOneByOne(items: seq<RuleItem>, i: nat)
    requires i < |items|
    ensures PrintAll(items)[i] == PrintRule(items[i])
    decreases |items|
  {
    if i < |items| - 1 {
      PrintedOneByOne(items[..|items| - 1], i);
    }
  }

  function RulesToTxt(items: seq<RuleItem>): string {
    Join(PrintAll(items), '\n')
  }

  // ---------- parsing ----------

  /** `host:port`, cut at the last colon. */
  function ParseAddr(a: string, other: Spellings): Option<Target> {
    var idx := LastIndexOf(a, ':');
    if idx <= 0 || idx >= |a| - 1 then None
    else
      var host := Trim(a[..idx]);
      var port := Number(Trim(a[idx + 1..]), other);
      if host == "" || !IsPort(port) then None else Some(Target(host, port.value))
  }

  /** The addresses of a list, blanks around them and empty ones dropped. */
  function Addresses(pieces: seq<string>): seq<string> {
    if pieces == [] then []
    else
      var a := Trim(pieces[0]);
      (if a == "" then [] else [a]) + Addresses(pieces[1..])
  }

  datatype AddrList = Targets(targets: seq<Target>) | BadAddr(address: string)

  /** All addresses of a list, or the first that is no `host:port`. */
  function ParseAddrs(addrs: seq<string>, other: Spellings): (p: AddrList)
    ensures p.Targets? ==> |p.targets| == |addrs|
  {
    if addrs == [] then Targets([])
    else
      match ParseAddrs(addrs[..|addrs| - 1], other)
      case BadAddr(a) => BadAddr(a)
      case Targets(ts) =>
        match ParseAddr(addrs[|addrs| - 1], other)
        case None => BadAddr(addrs[|addrs| - 1])
        case Some(t) => Targets(ts + [t])
  }

  datatype Parsed = Blank | Good(item: RuleItem) | Bad(error: LineError)

  function ItemFor(name: string, port: int, targets: seq<Target>, opts: Options): RuleItem
    requires targets != []
  {
    RuleItem(name, opts.protocol, "0.0.0.0", port, targets[0].host, targets[0].port, true, opts.nodeName,
             None, None, None, Some(targets[1..]), "fifo")
  }

  function ParseLine(raw: string, n: nat, opts: Options, other: Spellings): Parsed {
    var line := Trim(raw);
    if line == "" then Blank
    else
      var parts := Split(line, '|');
      if |parts| < 3 then Bad(BadFormat(n))
      else if Trim(parts[1]) == "" then Bad(EmptyName(n))
      else
        var port := Number(Trim(parts[2]), other);
        if Trim(parts[2]) == "" || !IsPort(port) then Bad(BadPort(n))
        else
          var addrs := Addresses(Split(parts[0], ','));
          if addrs == [] then Bad(NoTargets(n))
          else
            match ParseAddrs(addrs, other)
            case BadAddr(a) => Bad(BadTarget(n, a))
            case Targets(ts) => Good(ItemFor(Trim(parts[1]), port.value, ts, opts))
  }

  /** The items and the errors of these lines, each in line order. */
  function ParseLines(lines: seq<string>, opts: Options, other: Spellings): (seq<RuleItem>, seq<LineError>) {
    if lines == [] then ([], [])
    else
      var (items, errors) := ParseLines(lines[..|lines| - 1], opts, other);
      match ParseLine(lines[|lines| - 1], |lines|, opts, other)
      case Blank => (items, errors)
      case Good(item) => (items + [item], errors)
      case Bad(error) => (items, errors + [error])
  }

  /** The inner loop over one line's addresses, up to the first bad one. */
  method ParseTargets(addrs: seq<string>, other: Spellings) returns (parsed: AddrList)
    ensures parsed == ParseAddrs(addrs, other)
  {
    var targets := [];
    var i := 0;
    while i < |addrs|
      invariant 0 <= i <= |addrs| && ParseAddrs(addrs[..i], other) == Targets(targets)
    {
      assert addrs[..i + 1][..i] == addrs[..i];
      var t := ParseAddr(addrs[i], other);
      if t.None? {
        BadAddrStays(addrs, other, i + 1);
        return BadAddr(addrs[i]);
      }
      targets := targets + [t.value];
      i := i + 1;
    }
    assert addrs[..i] == addrs;
    return Targets(targets);
  }

  lemma {:induction false} BadAddrStays(addrs: seq<string>, other: Spellings, i: nat)
    requires i <= |addrs| && ParseAddrs(addrs[..i], other).BadAddr?
    ensures ParseAddrs(addrs, other) == ParseAddrs(addrs[..i], other)
    decreases |addrs| - i
  {
    if i == |addrs| {
      assert addrs[..i] == addrs;
    } else {
      assert addrs[..i + 1][..i] == addrs[..i];
      BadAddrStays(addrs, other, i + 1);
    }
  }

  method ParseTxtToItems(txt: string, opts: Options, other: Spellings)
    returns (items: seq<RuleItem>, errors: seq<LineError>)
    ensures (items, errors) == ParseLines(Split(txt, '\n'), opts, other)
  {
    items, errors := [], [];
    var lines := Split(txt, '\n');
    var i := 0;
    while i < |lines|
      invariant 0 <= i <= |lines| && (items, errors) == ParseLines(lines[..i], opts, other)
    {
      assert lines[..i + 1][..i] == lines[..i];
      var line := Trim(lines[i]);
      i := i + 1;
      if line == "" {
        continue;
      }
      var parts := Split(line, '|');
      if |parts| < 3 {
        errors := errors + [BadFormat(i)];
        continue;
      }
      var (addrList, name, portStr) := (parts[0], parts[1], parts[2]);
      if Trim(name) == "" {
        errors := errors + [EmptyName(i)];
        continue;
      }
      var port := Number(Trim(portStr), other);
      if Trim(portStr) == "" || port.None? || port.value < 1 || port.value > 65535 {
        errors := errors + [BadPort(i)];
        continue;
      }
      var addrs := Addresses(Split(addrList, ','));
      if |addrs| == 0 {
        errors := errors + [NoTargets(i)];
        continue;
      }
      var parsed := ParseTargets(addrs, other);
      if parsed.BadAddr? {
        errors := errors + [BadTarget(i, parsed.address)];
        continue;
      }
      items := items + [ItemFor(Trim(name), port.value, parsed.targets, opts)];
    }
    assert lines[..i] == lines;
  }

  // ---------- every line is answered once ----------

  predicate IsBlank(raw: string) { Trim(raw) == "" }

  function NonBlank(lines: seq<string>): nat {
    if lines == [] then 0 else NonBlank(lines[..|lines| - 1]) + if IsBlank(lines[|lines| - 1]) then 0 else 1
  }

  /** A line that is not blank gives an item or an error with its own number, and one that is gives nothing. */
  lemma {:induction false} LineIsAnswered(raw: string, n: nat, opts: Options, other: Spellings)
    ensures var p := ParseLine(raw, n, opts, other);
            && (p.Blank? <==> IsBlank(raw))
            && (p.Bad? ==> p.error.line == n)
            && (p.Good? ==> 1 <= p.item.listenPort <= 65535 && p.item.name != "" && p.item.extraTargets.Some?)
  {
  }

  /** For any text: as many items and errors together as lines that are not blank. */
  lemma {:induction false} EachLineAnsweredOnce(lines: seq<string>, opts: Options, other: Spellings)
    ensures var (items, errors) := ParseLines(lines, opts, other); |items| + |errors| == NonBlank(lines)
  {
    if lines != [] {
      EachLineAnsweredOnce(lines[..|lines| - 1], opts, other);
      LineIsAnswered(lines[|lines| - 1], |lines|, opts, other);
    }
  }

  predicate NamesItsLine(lines: seq<string>, e: LineError, opts: Options, other: Spellings) {
    1 <= e.line <= |lines| && ParseLine(lines[e.line - 1], e.line, opts, other) == Bad(e)
  }

  predicate Ascending(errors: seq<LineError>) {
    forall i, j :: 0 <= i < j < |errors| ==> errors[i].line < errors[j].line
  }

  lemma StillNamesItsLine(
      lines: seq<string>, earlier: seq<string>, errors: seq<LineError>, opts: Options, other: Spellings)
    requires earlier <= lines && forall e :: e in errors ==> NamesItsLine(earlier, e, opts, other)
    ensures forall e :: e in errors ==> NamesItsLine(lines, e, opts, other) && e.line <= |earlier|
  {
    forall e | e in errors ensures NamesItsLine(lines, e, opts, other) && e.line <= |earlier| {
      assert earlier[e.line - 1] == lines[e.line - 1];
    }
  }

  /** For any text: the errors name, in ascending order, lines that have them. */
  lemma {:induction false} ErrorsNameTheirLines(lines: seq<string>, opts: Options, other: Spellings)
    ensures var errors := ParseLines(lines, opts, other).1;
            Ascending(errors) && forall e :: e in errors ==> NamesItsLine(lines, e, opts, other)
  {
    if lines != [] {
      var earlier := lines[..|lines| - 1];
      var p := ParseLine(lines[|lines| - 1], |lines|, opts, other);
      ErrorsNameTheirLines(earlier, opts, other);
      LineIsAnswered(lines[|lines| - 1], |lines|, opts, other);
      var errors := ParseLines(earlier, opts, other).1;
      StillNamesItsLine(lines, earlier, errors, opts, other);
      AscendingGrows(errors, p);
    }
  }

  lemma AscendingGrows(errors: seq<LineError>, p: Parsed)
    requires Ascending(errors) && (p.Bad? ==> forall e :: e in errors ==> e.line < p.error.line)
    ensures p.Bad? ==> Ascending(errors + [p.error])
  {
  }

  // ---------- exactly which lines give an item, and what is in it ----------

  predicate TidyEnds(s: string) {
    s != "" && !IsSpace(s[0]) && !IsSpace(s[|s| - 1])
  }

  predicate AllSpace(s: string) { forall i :: 0 <= i < |s| ==> IsSpace(s[i]) }

  lemma {:induction false} TrimStartCuts(s: string) returns (before: string)
    ensures s == before + TrimStart(s) && AllSpace(before) && (TrimStart(s) != "" ==> !IsSpace(TrimStart(s)[0]))
  {
    before := "";
    if s != "" && IsSpace(s[0]) {
      before := TrimStartCuts(s[1..]);
      assert s == [s[0]] + s[1..];
      before := [s[0]] + before;
    }
  }

  lemma {:induction false} TrimEndCuts(s: string) returns (after: string)
    ensures s == TrimEnd(s) + after && AllSpace(after)
    ensures TrimEnd(s) != "" ==> TrimEnd(s)[0] == s[0] && !IsSpace(TrimEnd(s)[|TrimEnd(s)| - 1])
  {
    after := "";
    if s != "" && IsSpace(s[|s| - 1]) {
      after := TrimEndCuts(s[..|s| - 1]);
      AllButLastAndLast(s);
      after := after + [s[|s| - 1]];
    }
  }

  /** Trimming takes white space off both ends and stops at the first thing that is none. */
  lemma TrimCutsBlanks(s: string) returns (before: string, after: string)
    ensures s == before + Trim(s) + after && AllSpace(before) && AllSpace(after)
    ensures Trim(s) == "" || TidyEnds(Trim(s))
  {
    before := TrimStartCuts(s);
    after := TrimEndCuts(TrimStart(s));
  }

  /** The pieces are the string cut at its separators: joined they give it back, and none has a separator in it. */
  lemma {:induction false} JoinUndoesSplit(s: string, sep: char)
    ensures Join(Split(s, sep), sep) == s && forall p :: p in Split(s, sep) ==> sep !in p
  {
    if s != "" {
      var r := Split(s[1..], sep);
      JoinUndoesSplit(s[1..], sep);
      assert r[0] in r && forall p :: p in r[1..] ==> p in r;
      assert s == [s[0]] + s[1..];
      if s[0] == sep {
        assert ([""] + r)[1..] == r;
      } else if |r| > 1 {
        assert ([[s[0]] + r[0]] + r[1..])[1..] == r[1..];
        assert [s[0]] + r[0] + [sep] + Join(r[1..], sep) == [s[0]] + (r[0] + [sep] + Join(r[1..], sep));
      }
    }
  }

  /** An address list is read piece by piece; blank pieces count for nothing. */
  lemma {:induction false} AddressesPieceByPiece(a: seq<string>, piece: string, b: seq<string>)
    ensures Addresses(a + [piece] + b)
            == Addresses(a) + (if Trim(piece) == "" then [] else [Trim(piece)]) + Addresses(b)
  {
    hide Trim;
    var all := a + [piece] + b;
    if a == [] {
      assert all[0] == piece && all[1..] == b;
    } else {
      AddressesPieceByPiece(a[1..], piece, b);
      assert all[0] == a[0] && all[1..] == a[1..] + [piece] + b;
    }
  }

  lemma {:induction false} LastIndexCuts(s: string, c: char)
    ensures var i := LastIndexOf(s, c);
            if i < 0 then c !in s else i < |s| && s[i] == c && c !in s[i + 1..]
  {
    if s != "" && s[|s| - 1] != c {
      LastIndexCuts(s[..|s| - 1], c);
      AllButLastAndLast(s);
    }
  }

  predicate InPortRange(n: int) { 1 <= n <= 65535 }

  /** The address is this host, a colon and this port; further colons belong to the host. */
  predicate Reads(a: string, host: string, digits: string, t: Target, other: Spellings) {
    a == host + ":" + digits && ':' !in digits && Trim(host) == t.host && t.host != ""
    && Number(Trim(digits), other) == Some(t.port) && InPortRange(t.port)
  }

  /** Exactly which addresses are read, and as what. */
  lemma AddressIsExact(a: string, t: Target, other: Spellings)
    ensures ParseAddr(a, other) == Some(t) <==> exists host, digits :: Reads(a, host, digits, t, other)
  {
    LastIndexCuts(a, ':');
    var i := LastIndexOf(a, ':');
    if ParseAddr(a, other) == Some(t) {
      assert a == a[..i] + ":" + a[i + 1..];
      assert Reads(a, a[..i], a[i + 1..], t, other);
    }
    if host, digits :| Reads(a, host, digits, t, other) {
      LastIndexOfColon(host, digits);
      assert a[..i] == host && a[i + 1..] == digits;
    }
  }

  /** A list of addresses is read as a whole or stands or falls with its first bad one. */
  lemma {:induction false} AddressListIsExact(addrs: seq<string>, other: Spellings)
    ensures match ParseAddrs(addrs, other)
            case Targets(ts) =>
              |ts| == |addrs| && forall i :: 0 <= i < |addrs| ==> ParseAddr(addrs[i], other) == Some(ts[i])
            case BadAddr(a) =>
              exists i :: 0 <= i < |addrs| && addrs[i] == a && ParseAddr(a, other).None?
                          && forall j :: 0 <= j < i ==> ParseAddr(addrs[j], other).Some?
  {
    hide ParseAddr;
    if addrs != [] {
      var earlier := addrs[..|addrs| - 1];
      AddressListIsExact(earlier, other);
      assert forall i :: 0 <= i < |earlier| ==> earlier[i] == addrs[i];
      if ParseAddrs(earlier, other).BadAddr? {
        var a := ParseAddrs(earlier, other).address;
        var i :| 0 <= i < |earlier| && earlier[i] == a && ParseAddr(a, other).None?
                 && forall j :: 0 <= j < i ==> ParseAddr(earlier[j], other).Some?;
        assert addrs[i] == a;
      }
    }
  }

  /** The line has these fields: an address list, a name and a port, and possibly more that do not matter. */
  predicate HasFields(raw: string, fields: seq<string>) {
    |fields| >= 3 && Join(fields, '|') == Trim(raw) && forall f :: f in fields ==> '|' !in f
  }

  /** These fields say what is in the item: name and port, and the targets in the order of the list. */
  predicate FieldsGive(fields: seq<string>, it: RuleItem, other: Spellings)
    requires |fields| >= 3
  {
    var addrs := Addresses(Split(fields[0], ','));
    && it.name == Trim(fields[1]) && it.name != ""
    && Number(Trim(fields[2]), other) == Some(it.listenPort) && InPortRange(it.listenPort)
    && it.extraTargets.Some? && |addrs| == |TargetsOf(it)|
    && forall i :: 0 <= i < |addrs| ==> ParseAddr(addrs[i], other) == Some(TargetsOf(it)[i])
  }

  /** What the line does not say comes from the dialog or is fixed. */
  predicate FromDialog(it: RuleItem, opts: Options) {
    && it.protocol == opts.protocol && it.nodeName == opts.nodeName && it.listenIp == "0.0.0.0" && it.enabled
    && it.tunnelName.None? && it.bandwidthProfileName.None? && it.ownerUsername.None? && it.lbStrategy == "fifo"
  }

  lemma FieldsAreSplit(raw: string, fields: seq<string>)
    ensures HasFields(raw, fields) <==> fields == Split(Trim(raw), '|') && |fields| >= 3
  {
    JoinUndoesSplit(Trim(raw), '|');
    if HasFields(raw, fields) {
      SplitUndoesJoin(fields, '|');
    }
  }

  lemma TargetsOfItem(name: string, port: int, ts: seq<Target>, opts: Options)
    requires ts != []
    ensures TargetsOf(ItemFor(name, port, ts, opts)) == ts && FromDialog(ItemFor(name, port, ts, opts), opts)
  {
    assert [ts[0]] + ts[1..] == ts;
  }

  lemma GoodLineHasFields(raw: string, n: nat, opts: Options, other: Spellings, it: RuleItem)
    requires ParseLine(raw, n, opts, other) == Good(it)
    ensures FromDialog(it, opts) && HasFields(raw, Split(Trim(raw), '|'))
    ensures FieldsGive(Split(Trim(raw), '|'), it, other)
  {
    var fields := Split(Trim(raw), '|');
    FieldsAreSplit(raw, fields);
    hide Trim, Split, Join, Number, ParseAddr, ParseAddrs, Addresses;
    var addrs := Addresses(Split(fields[0], ','));
    AddressListIsExact(addrs, other);
    var ts := ParseAddrs(addrs, other).targets;
    TargetsOfItem(it.name, it.listenPort, ts, opts);
  }

  lemma FieldsMakeItem(raw: string, n: nat, opts: Options, other: Spellings, it: RuleItem, fields: seq<string>)
    requires FromDialog(it, opts) && HasFields(raw, fields) && FieldsGive(fields, it, other)
    ensures ParseLine(raw, n, opts, other) == Good(it)
  {
    FieldsAreSplit(raw, fields);
    assert Number("", other) == Some(0) && Split("", '|') == [""];
    hide Trim, Split, Join, Number, ParseAddr, ParseAddrs, Addresses;
    ParsedOneByOne(Addresses(Split(fields[0], ',')), TargetsOf(it), other);
  }

  /** Exactly which lines give an item, and every field of that item. */
  lemma ItemsAreExact(raw: string, n: nat, opts: Options, other: Spellings, it: RuleItem)
    ensures ParseLine(raw, n, opts, other) == Good(it)
            <==> FromDialog(it, opts) && exists fields :: HasFields(raw, fields) && FieldsGive(fields, it, other)
  {
    hide ParseLine, FromDialog, FieldsGive;
    if ParseLine(raw, n, opts, other) == Good(it) {
      GoodLineHasFields(raw, n, opts, other, it);
    }
    if fields :| FromDialog(it, opts) && HasFields(raw, fields) && FieldsGive(fields, it, other) {
      FieldsMakeItem(raw, n, opts, other, it, fields);
    }
  }

  /** And exactly what is wrong with a line that gives none: the first thing that is, from left to right. */
  lemma ErrorsAreExact(raw: string, n: nat, opts: Options, other: Spellings)
    ensures var p := ParseLine(raw, n, opts, other);
            var fields := Split(Trim(raw), '|');
            p.Bad? ==>
              match p.error
              case BadFormat(_) => |fields| < 3
              case EmptyName(_) => |fields| >= 3 && AllSpace(fields[1])
              case BadPort(_) =>
                |fields| >= 3 && !AllSpace(fields[1])
                && (AllSpace(fields[2]) || !IsPort(Number(Trim(fields[2]), other)))
              case NoTargets(_) =>
                |fields| >= 3 && !AllSpace(fields[1]) && !AllSpace(fields[2]) && IsPort(Number(Trim(fields[2]), other))
                && Addresses(Split(fields[0], ',')) == []
              case BadTarget(_, a) =>
                |fields| >= 3 && !AllSpace(fields[1]) && !AllSpace(fields[2]) && IsPort(Number(Trim(fields[2]), other))
                && a in Addresses(Split(fields[0], ',')) && ParseAddr(a, other).None?
  {
    var fields := Split(Trim(raw), '|');
    if |fields| >= 3 {
      BlankMeansEmpty(fields[1]);
      BlankMeansEmpty(fields[2]);
      AddressListIsExact(Addresses(Split(fields[0], ',')), other);
    }
  }

  lemma BlankMeansEmpty(s: string)
    ensures AllSpace(s) <==> Trim(s) == ""
  {
    var before, after := TrimCutsBlanks(s);
    if Trim(s) != "" {
      assert s[|before|] == Trim(s)[0];
    }
  }

  /** The items of a text are those of its good lines. */
  lemma {:induction false} ItemsAreTheGoodLines(lines: seq<string>, opts: Options, other: Spellings, it: RuleItem)
    ensures it in ParseLines(lines, opts, other).0
            <==> exists k :: 0 <= k < |lines| && ParseLine(lines[k], k + 1, opts, other) == Good(it)
  {
    hide ParseLine;
    if lines != [] {
      var earlier := lines[..|lines| - 1];
      ItemsAreTheGoodLines(earlier, opts, other, it);
      forall k | 0 <= k < |earlier|
        ensures ParseLine(earlier[k], k + 1, opts, other) == ParseLine(lines[k], k + 1, opts, other)
      {
      }
    }
  }

  // ---------- printed rules are read back ----------

  predicate PlainTarget(t: Target) {
    TidyEnds(t.host) && '|' !in t.host && '\n' !in t.host && ',' !in t.host && 1 <= t.port <= 65535
  }

  predicate PlainName(name: string) {
    TidyEnds(name) && '|' !in name && '\n' !in name
  }

  /** A rule whose text has no separators in the wrong places. */
  predicate Printable(it: RuleItem) {
    PlainName(it.name) && 1 <= it.listenPort <= 65535 && forall t :: t in TargetsOf(it) ==> PlainTarget(t)
  }

  lemma {:induction false} DecimalReadsBack(n: nat)
    ensures Decimal(n) != "" && AllDigits(Decimal(n)) && ValueOf(Decimal(n)) == n
  {
    if n < 10 {
      assert Decimal(n)[..0] == "";
    } else {
      DecimalReadsBack(n / 10);
      var d := Decimal(n);
      assert d[..|d| - 1] == Decimal(n / 10);
    }
  }

  lemma {:induction false} SplitAtFirst(a: string, rest: string, sep: char)
    requires sep !in a
    ensures Split(a + [sep] + rest, sep) == [a] + Split(rest, sep)
  {
    var s := a + [sep] + rest;
    if a == "" {
      assert s == [sep] + rest;
    } else {
      assert s[0] == a[0] && s[1..] == a[1..] + [sep] + rest;
      SplitAtFirst(a[1..], rest, sep);
      assert [a[0]] + a[1..] == a;
    }
  }

  lemma {:induction false} SplitWhole(a: string, sep: char)
    requires sep !in a
    ensures Split(a, sep) == [a]
  {
    if a != "" {
      SplitWhole(a[1..], sep);
      assert [a[0]] + a[1..] == a;
    }
  }

  lemma {:induction false} SplitUndoesJoin(parts: seq<string>, sep: char)
    requires parts != [] && forall p :: p in parts ==> sep !in p
    ensures Split(Join(parts, sep), sep) == parts
  {
    assert parts[0] in parts;
    if |parts| == 1 {
      SplitWhole(parts[0], sep);
    } else {
      assert forall p :: p in parts[1..] ==> p in parts;
      SplitUndoesJoin(parts[1..], sep);
      SplitAtFirst(parts[0], Join(parts[1..], sep), sep);
    }
  }

  lemma {:induction false} JoinLacks(parts: seq<string>, sep: char, c: char)
    requires c != sep && forall p :: p in parts ==> c !in p
    ensures c !in Join(parts, sep)
  {
    if |parts| == 1 {
      assert parts[0] in parts;
    } else if parts != [] {
      assert parts[0] in parts && forall p :: p in parts[1..] ==> p in parts;
      JoinLacks(parts[1..], sep, c);
    }
  }

  lemma {:induction false} LastIndexOfColon(host: string, digits: string)
    requires ':' !in digits
    ensures LastIndexOf(host + ":" + digits, ':') == |host|
  {
    var s := host + ":" + digits;
    if digits != "" {
      var shorter := digits[..|digits| - 1];
      assert s[..|s| - 1] == host + ":" + shorter;
      LastIndexOfColon(host, shorter);
    }
  }

  lemma TidyIsTrimmed(s: string)
    requires TidyEnds(s)
    ensures Trim(s) == s
  {
  }

  lemma PortReadsBack(port: int, other: Spellings)
    requires 1 <= port <= 65535
    ensures TidyEnds(Shown(port)) && Number(Shown(port), other) == Some(port)
    ensures AllDigits(Shown(port))
  {
    DecimalReadsBack(port);
  }

  /** An address is read back whatever colons the host has. */
  lemma TargetReadsBack(t: Target, other: Spellings)
    requires PlainTarget(t)
    ensures ParseAddr(PrintTarget(t), other) == Some(t)
    ensures var p := PrintTarget(t); TidyEnds(p) && p[0] == t.host[0] && '|' !in p && '\n' !in p && ',' !in p
  {
    var digits := Shown(t.port);
    PortReadsBack(t.port, other);
    LastIndexOfColon(t.host, digits);
    TidyIsTrimmed(t.host);
    TidyIsTrimmed(digits);
    var p := PrintTarget(t);
    assert p[..|t.host|] == t.host && p[|t.host| + 1..] == digits;
  }

  lemma OneMoreAddress(addrs: seq<string>, a: string, ts: seq<Target>, t: Target, other: Spellings)
    requires ParseAddrs(addrs, other) == Targets(ts) && ParseAddr(a, other) == Some(t)
    ensures ParseAddrs(addrs + [a], other) == Targets(ts + [t])
  {
    assert (addrs + [a])[..|addrs|] == addrs;
  }

  lemma {:induction false} ParsedOneByOne(addrs: seq<string>, ts: seq<Target>, other: Spellings)
    requires |addrs| == |ts| && forall i :: 0 <= i < |ts| ==> ParseAddr(addrs[i], other) == Some(ts[i])
    ensures ParseAddrs(addrs, other) == Targets(ts)
  {
    if ts != [] {
      var n := |ts| - 1;
      ParsedOneByOne(addrs[..n], ts[..n], other);
      OneMoreAddress(addrs[..n], addrs[n], ts[..n], ts[n], other);
      AllButLastAndLast(ts);
      AllButLastAndLast(addrs);
    }
  }

  lemma TargetsReadBack(ts: seq<Target>, other: Spellings)
    requires forall t :: t in ts ==> PlainTarget(t)
    ensures ParseAddrs(PrintTargets(ts), other) == Targets(ts)
  {
    forall i | 0 <= i < |ts| ensures ParseAddr(PrintTargets(ts)[i], other) == Some(ts[i]) {
      assert ts[i] in ts;
      TargetReadsBack(ts[i], other);
    }
    ParsedOneByOne(PrintTargets(ts), ts, other);
  }

  lemma {:induction false} TidyAddressesStay(pieces: seq<string>)
    requires forall a :: a in pieces ==> TidyEnds(a)
    ensures Addresses(pieces) == pieces
  {
    if pieces != [] {
      assert pieces[0] in pieces && forall a :: a in pieces[1..] ==> a in pieces;
      TidyAddressesStay(pieces[1..]);
      assert [pieces[0]] + pieces[1..] == pieces;
    }
  }

  lemma PrintedTargetsArePlain(ts: seq<Target>, other: Spellings)
    requires forall t :: t in ts ==> PlainTarget(t)
    ensures forall p :: p in PrintTargets(ts) ==> TidyEnds(p) && '|' !in p && '\n' !in p && ',' !in p
  {
    forall i | 0 <= i < |ts|
      ensures var p := PrintTargets(ts)[i]; TidyEnds(p) && '|' !in p && '\n' !in p && ',' !in p
    {
      assert ts[i] in ts;
      TargetReadsBack(ts[i], other);
    }
  }

  lemma JoinThree(a: string, b: string, c: string, sep: char)
    ensures Join([a, b, c], sep) == a + [sep] + b + [sep] + c
  {
    assert [a, b, c][1..] == [b, c] && [b, c][1..] == [c];
    assert Join([b, c], sep) == b + [sep] + c;
    assert a + [sep] + (b + [sep] + c) == a + [sep] + b + [sep] + c;
  }

  function FieldsOf(it: RuleItem): seq<string> {
    [Join(PrintTargets(TargetsOf(it)), ','), it.name, Shown(it.listenPort)]
  }

  lemma FieldsArePlain(it: RuleItem, other: Spellings)
    requires Printable(it)
    ensures forall f :: f in FieldsOf(it) ==> '|' !in f && '\n' !in f
  {
    var ts := PrintTargets(TargetsOf(it));
    PrintedTargetsArePlain(TargetsOf(it), other);
    JoinLacks(ts, ',', '|');
    JoinLacks(ts, ',', '\n');
    DecimalReadsBack(it.listenPort);
  }

  /** The text of a rule is its three fields, and contains no line break. */
  lemma PrintedFields(it: RuleItem, other: Spellings)
    requires Printable(it)
    ensures Split(PrintRule(it), '|') == FieldsOf(it)
    ensures '\n' !in PrintRule(it)
  {
    var f := FieldsOf(it);
    JoinThree(f[0], f[1], f[2], '|');
    assert f == [f[0], f[1], f[2]];
    FieldsArePlain(it, other);
    SplitUndoesJoin(f, '|');
    JoinLacks(f, '|', '\n');
  }

  lemma PrintedLineIsTidy(it: RuleItem, other: Spellings)
    requires Printable(it)
    ensures TidyEnds(PrintRule(it))
  {
    var ts := PrintTargets(TargetsOf(it));
    assert TargetsOf(it)[0] in TargetsOf(it);
    TargetReadsBack(TargetsOf(it)[0], other);
    assert Join(ts, ',')[0] == ts[0][0];
    DecimalReadsBack(it.listenPort);
    var digits := Decimal(it.listenPort);
    var line := PrintRule(it);
    assert line[|line| - 1] == digits[|digits| - 1];
  }

  lemma FieldsParse(raw: string, fields: seq<string>, port: int, pieces: seq<string>, ts: seq<Target>,
                    n: nat, opts: Options, other: Spellings)
    requires TidyEnds(raw) && Split(raw, '|') == fields && |fields| == 3
    requires TidyEnds(fields[1]) && TidyEnds(fields[2]) && Number(fields[2], other) == Some(port) && 1 <= port <= 65535
    requires Addresses(Split(fields[0], ',')) == pieces && ParseAddrs(pieces, other) == Targets(ts) && ts != []
    ensures ParseLine(raw, n, opts, other) == Good(ItemFor(fields[1], port, ts, opts))
  {
    TidyIsTrimmed(raw);
    TidyIsTrimmed(fields[1]);
    TidyIsTrimmed(fields[2]);
  }

  lemma AddressListReadsBack(ts: seq<Target>, other: Spellings)
    requires ts != [] && forall t :: t in ts ==> PlainTarget(t)
    ensures var pieces := PrintTargets(ts);
            Addresses(Split(Join(pieces, ','), ',')) == pieces && ParseAddrs(pieces, other) == Targets(ts)
  {
    PrintedTargetsArePlain(ts, other);
    SplitUndoesJoin(PrintTargets(ts), ',');
    TidyAddressesStay(PrintTargets(ts));
    TargetsReadBack(ts, other);
  }

  /** A rule as it comes back: its name, listen port and targets, the rest from the dialog. */
  function Reread(it: RuleItem, opts: Options): RuleItem {
    ItemFor(it.name, it.listenPort, TargetsOf(it), opts)
  }

  function RereadAll(items: seq<RuleItem>, opts: Options): (back: seq<RuleItem>)
    ensures |back| == |items| && forall i :: 0 <= i < |items| ==> back[i] == Reread(items[i], opts)
  {
    if items == [] then [] else RereadAll(items[..|items| - 1], opts) + [Reread(items[|items| - 1], opts)]
  }

  /** One printed rule is read back as an item with its name, its listen port and its targets in order. */
  lemma RuleReadsBack(it: RuleItem, n: nat, opts: Options, other: Spellings)
    requires Printable(it)
    ensures ParseLine(PrintRule(it), n, opts, other) == Good(Reread(it, opts))
  {
    var ts := PrintTargets(TargetsOf(it));
    PrintedLineIsTidy(it, other);
    PrintedFields(it, other);
    PortReadsBack(it.listenPort, other);
    AddressListReadsBack(TargetsOf(it), other);
    FieldsParse(PrintRule(it), FieldsOf(it), it.listenPort, ts, TargetsOf(it), n, opts, other);
  }

  predicate SameRule(a: RuleItem, b: RuleItem) {
    a.name == b.name && a.listenPort == b.listenPort && TargetsOf(a) == TargetsOf(b)
  }

  lemma SameRuleAsPrinted(it: RuleItem, opts: Options)
    ensures SameRule(it, Reread(it, opts))
  {
    var ts := TargetsOf(it);
    assert ts == [ts[0]] + ts[1..];
  }

  lemma OneMoreLine(lines: seq<string>, line: string, opts: Options, other: Spellings)
    ensures var (items, errors) := ParseLines(lines, opts, other);
            ParseLines(lines + [line], opts, other)
            == match ParseLine(line, |lines| + 1, opts, other)
               case Blank => (items, errors)
               case Good(item) => (items + [item], errors)
               case Bad(error) => (items, errors + [error])
  {
    assert (lines + [line])[..|lines|] == lines;
  }

  lemma {:induction false} LinesReadBack(items: seq<RuleItem>, opts: Options, other: Spellings)
    requires forall it :: it in items ==> Printable(it)
    ensures ParseLines(PrintAll(items), opts, other) == (RereadAll(items, opts), [])
  {
    if items != [] {
      var earlier, it := items[..|items| - 1], items[|items| - 1];
      assert it in items && forall e :: e in earlier ==> e in items;
      LinesReadBack(earlier, opts, other);
      var lines := PrintAll(earlier);
      RuleReadsBack(it, |lines| + 1, opts, other);
      OneMoreLine(lines, PrintRule(it), opts, other);
    }
  }

  /**
   * The round trip: printing rules and parsing the text gives no error and, in order, rules of the
   * same names, listen ports and targets, whatever else the language takes for a number.
   */
  lemma {:induction false} TxtRoundTrip(items: seq<RuleItem>, opts: Options, other: Spellings)
    requires forall it :: it in items ==> Printable(it)
    ensures var (back, errors) := ParseLines(Split(RulesToTxt(items), '\n'), opts, other);
            errors == [] && |back| == |items| && forall i :: 0 <= i < |items| ==> SameRule(items[i], back[i])
  {
    if items == [] {
      assert Split("", '\n') == [""];
      assert [""][..0] == [];
    } else {
      forall i | 0 <= i < |items| ensures '\n' !in PrintAll(items)[i] {
        PrintedOneByOne(items, i);
        assert items[i] in items;
        PrintedFields(items[i], other);
      }
      assert RulesToTxt(items) == Join(PrintAll(items), '\n');
      SplitUndoesJoin(PrintAll(items), '\n');
      LinesReadBack(items, opts, other);
      forall i | 0 <= i < |items| ensures SameRule(items[i], RereadAll(items, opts)[i]) {
        SameRuleAsPrinted(items[i], opts);
      }
    }
  }
}
