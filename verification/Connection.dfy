// handlers/create.go parseConnectionArgs: the output of "docker-machine config".
module Connection {
  import opened GoStrings

  // ---------- the two regular expressions ----------

  predicate IsGraph(c: char) {
    '!' <= c <= '~'
  }

  predicate IsWord(c: char) {
    IsLower(c) || IsUpper(c) || IsDigit(c) || c == '_'
  }

  function GraphRun(s: string): (n: nat)
    ensures n <= |s|
  {
    if s != "" && IsGraph(s[0]) then 1 + GraphRun(s[1..]) else 0
  }

  // A scan with -H=[[:alnum:]]*[[:graph:]]*: the matches, from left to right, and the text
  // without them.
  datatype Scan = Scan(matches: seq<string>, rest: string)

  function ScanEndpoints(s: string): Scan
    decreases |s|
  {
    if s == "" then Scan([], "")
    else if HasPrefix(s, "-H=") then
      var n := 3 + GraphRun(s[3..]);
      var tail := ScanEndpoints(s[n..]);
      Scan([s[..n]] + tail.matches, tail.rest)
    else
      var tail := ScanEndpoints(s[1..]);
      Scan(tail.matches, [s[0]] + tail.rest)
  }

  // The length of a match of \w*-- at the start of s.
  function Separator(s: string): Option<nat> {
    if HasPrefix(s, "--") then Some(2)
    else if s != "" && IsWord(s[0]) then
      match Separator(s[1..])
      case None => None
      case Some(n) => Some(n + 1)
    else None
  }

  lemma {:induction false} SeparatorFits(s: string)
    ensures Separator(s).Some? ==> 2 <= Separator(s).value <= |s|
  {
    if !HasPrefix(s, "--") && s != "" && IsWord(s[0]) {
      SeparatorFits(s[1..]);
    }
  }

  // Regexp.Split by \w*--, with piece the text since the last match.
  function SplitSeparators(piece: string, s: string): seq<string>
    decreases |s|
  {
    if s == "" then [piece]
    else
      SeparatorFits(s);
      match Separator(s)
      case Some(n) => [piece] + SplitSeparators("", s[n..])
      case None => SplitSeparators(piece + [s[0]], s[1..])
  }

  // ---------- parseConnectionArgs ----------

  datatype Config = Config(endpoint: string, caCert: string, cert: string, key: string)

  predicate QuoteOrBlank(c: char) {
    c == '"' || c == ' '
  }

  // What one piece of the TLS arguments does to the configuration.
  function ApplyArg(config: Config, arg: string): Config {
    var kv := Split(arg, '=');
    if |kv| != 2 then config
    else
      Assign(config, TrimSpace(kv[0]), Trim(TrimSpace(kv[1]), c => QuoteOrBlank(c)))
  }

  function Assign(config: Config, key: string, val: string): Config {
    if key == "tlscacert" then config.(caCert := val)
    else if key == "tlscert" then config.(cert := val)
    else if key == "tlskey" then config.(key := val)
    else config
  }

  function ApplyArgs(config: Config, args: seq<string>): Config
    decreases |args|
  {
    if args == [] then config else ApplyArgs(ApplyArg(config, args[0]), args[1..])
  }

  function Parse(args: string): Option<Config> {
    var scan := ScanEndpoints(args);
    if |scan.matches| != 1 then None
    else
      var endpointKV := Split(scan.matches[0], '=');
      if |endpointKV| != 2 then None
      else Some(ApplyArgs(Config(Without(endpointKV[1], '"'), "", "", ""), SplitSeparators("", scan.rest)))
  }

  method ParseConnectionArgs(args: string) returns (r: Option<Config>)
    ensures r == Parse(args)
  {
    var scan := ScanEndpoints(args);
    if |scan.matches| != 1 {
      return None;
    }
    var endpointKV := Split(scan.matches[0], '=');
    if |endpointKV| != 2 {
      return None;
    }
    var config := Config(Without(endpointKV[1], '"'), "", "", "");
    var tlsArgs := SplitSeparators("", scan.rest);
    ghost var start := config;
    for i := 0 to |tlsArgs|
      invariant ApplyArgs(config, tlsArgs[i..]) == ApplyArgs(start, tlsArgs)
    {
      assert tlsArgs[i..][0] == tlsArgs[i] && tlsArgs[i..][1..] == tlsArgs[i + 1..];
      var kv := Split(tlsArgs[i], '=');
      if |kv| == 2 {
        var key := TrimSpace(kv[0]);
        var val := Trim(TrimSpace(kv[1]), c => QuoteOrBlank(c));
        match key {
          case "tlscacert" => config := config.(caCert := val);
          case "tlscert" => config := config.(cert := val);
          case "tlskey" => config := config.(key := val);
          case _ =>
        }
      }
    }
    return Some(config);
  }

  // ---------- the printed form ----------

  datatype Item =
    | Endpoint(value: string, quoted: bool)
    | CaCert(value: string, quoted: bool)
    | Cert(value: string, quoted: bool)
    | Key(value: string, quoted: bool)
    | Tls

  function Quote(value: string, quoted: bool): string {
    if quoted then "\"" + value + "\"" else value
  }

  function Keyword(item: Item): string {
    match item
    case Endpoint(_, _) => "-H"
    case CaCert(_, _) => "tlscacert"
    case Cert(_, _) => "tlscert"
    case Key(_, _) => "tlskey"
    case Tls => "tls"
  }

  function PrintItem(item: Item): string {
    match item
    case Endpoint(v, q) => "-H=" + Quote(v, q)
    case Tls => "--tls"
    case _ => "--" + Keyword(item) + "=" + Quote(item.value, item.quoted)
  }

  // The items, each followed by its gap.
  function Print(items: seq<Item>, gaps: seq<string>): string
    requires |items| == |gaps|
  {
    if items == [] then "" else PrintItem(items[0]) + gaps[0] + Print(items[1..], gaps[1..])
  }

  predicate Blank(gap: string) {
    forall i :: 0 <= i < |gap| ==> gap[i] == ' ' || 9 <= gap[i] as int <= 13
  }

  predicate GraphicEndpoint(v: string) {
    forall i :: 0 <= i < |v| ==> 33 <= v[i] as int <= 126 && v[i] != '=' && v[i] != '"'
  }

  predicate NoDoubleDash(v: string) {
    forall i :: 0 <= i < |v| - 1 ==> !(v[i] == '-' && v[i + 1] == '-')
  }

  predicate PlainPathValue(v: string) {
    && (forall i :: 0 <= i < |v| ==> v[i] != '=' && v[i] != '"')
    && NoDoubleDash(v)
    && (v != "" ==> v[0] != ' ' && !(9 <= v[0] as int <= 13))
    && (v != "" ==> v[|v| - 1] != ' ' && !(9 <= v[|v| - 1] as int <= 13))
  }

  predicate Printable(item: Item) {
    match item
    case Endpoint(v, _) => GraphicEndpoint(v)
    case Tls => true
    case _ => PlainPathValue(item.value)
  }

  // One or more blanks between items; the last may be followed by none.
  predicate Printed(items: seq<Item>, gaps: seq<string>) {
    && |items| == |gaps|
    && (forall i :: 0 <= i < |items| ==> Printable(items[i]) && Blank(gaps[i]))
    && (forall i :: 0 <= i < |items| - 1 ==> gaps[i] != "")
  }

  lemma PrintedTail(items: seq<Item>, gaps: seq<string>)
    requires Printed(items, gaps) && items != []
    ensures Printed(items[1..], gaps[1..])
    ensures Printable(items[0]) && Blank(gaps[0])
    ensures Print(items[1..], gaps[1..]) != "" ==> gaps[0] != ""
    ensures PrintTls(items[1..], gaps[1..]) != "" ==> gaps[0] != ""
  {
    if |items| > 1 {
      assert gaps[0] != "";
    }
  }

  // What the items mean: the last one of a kind counts.
  function Meaning(config: Config, items: seq<Item>): Config
    decreases |items|
  {
    if items == [] then config
    else
      var c := match items[0]
        case Endpoint(_, _) => config
        case CaCert(v, _) => config.(caCert := v)
        case Cert(v, _) => config.(cert := v)
        case Key(v, _) => config.(key := v)
        case Tls => config;
      Meaning(c, items[1..])
  }

  function Endpoints(items: seq<Item>): seq<Item>
    decreases |items|
  {
    if items == [] then []
    else (if items[0].Endpoint? then [items[0]] else []) + Endpoints(items[1..])
  }

  // ---------- scanning the printed form ----------

  lemma {:induction false} GraphRunAppend(a: string, b: string)
    requires forall i :: 0 <= i < |a| ==> IsGraph(a[i])
    requires b == "" || !IsGraph(b[0])
    ensures GraphRun(a + b) == |a|
  {
    if a == "" {
      assert a + b == b;
    } else {
      assert (a + b)[1..] == a[1..] + b;
      GraphRunAppend(a[1..], b);
    }
  }

  // No match of the endpoint expression starts inside a when b follows.
  ghost predicate NoEndpointIn(a: string, b: string) {
    forall i {:trigger (a + b)[i..]} :: 0 <= i < |a| ==> !HasPrefix((a + b)[i..], "-H=")
  }

  lemma {:induction false} ScanSkip(a: string, b: string)
    requires NoEndpointIn(a, b)
    ensures ScanEndpoints(a + b) == Scan(ScanEndpoints(b).matches, a + ScanEndpoints(b).rest)
    decreases |a|
  {
    var s := a + b;
    if a == "" {
      assert s == b;
    } else {
      assert s[0..] == s;
      assert !HasPrefix(s, "-H=");
      assert s[1..] == a[1..] + b;
      forall i | 0 <= i < |a[1..]| ensures !HasPrefix((a[1..] + b)[i..], "-H=") {
        assert (a[1..] + b)[i..] == s[i + 1..];
      }
      ScanSkip(a[1..], b);
      assert a == [a[0]] + a[1..];
    }
  }

  // The text of an item after its "--".
  function ArgText(item: Item): string {
    if item.Endpoint? then "" else if item.Tls? then "tls" else Keyword(item) + "=" + Quote(item.value, item.quoted)
  }

  // The printed items without the endpoints.
  function PrintTls(items: seq<Item>, gaps: seq<string>): string
    requires |items| == |gaps|
  {
    if items == [] then ""
    else (if items[0].Endpoint? then "" else PrintItem(items[0])) + gaps[0] + PrintTls(items[1..], gaps[1..])
  }

  lemma Reassociate(a: string, b: string, c: string, d: string)
    ensures a + b + c + d == a + (b + c + d)
  {
  }

  lemma {:induction false} PrintTlsCons(items: seq<Item>, gaps: seq<string>)
    requires |items| == |gaps| && items != []
    ensures items[0].Endpoint? ==> PrintTls(items, gaps) == gaps[0] + PrintTls(items[1..], gaps[1..])
    ensures !items[0].Endpoint? ==>
              && PrintItem(items[0]) == "--" + ArgText(items[0])
              && PrintTls(items, gaps) == PrintItem(items[0]) + gaps[0] + PrintTls(items[1..], gaps[1..])
              && PrintTls(items, gaps) == "--" + (ArgText(items[0]) + gaps[0] + PrintTls(items[1..], gaps[1..]))
  {
    if items[0].Endpoint? {
      assert "" + gaps[0] == gaps[0];
    } else {
      PrintedArg(items[0]);
      Reassociate("--", ArgText(items[0]), gaps[0], PrintTls(items[1..], gaps[1..]));
    }
  }

  lemma PrintedArg(item: Item)
    requires !item.Endpoint?
    ensures PrintItem(item) == "--" + ArgText(item)
  {
  }

  function PrintEach(items: seq<Item>): seq<string> {
    seq(|items|, i requires 0 <= i < |items| => PrintItem(items[i]))
  }

  lemma QuotedGraph(v: string, q: bool)
    requires GraphicEndpoint(v)
    ensures forall i :: 0 <= i < |Quote(v, q)| ==> IsGraph(Quote(v, q)[i]) && Quote(v, q)[i] != '='
  {
  }

  lemma EndpointStart(s: string)
    ensures HasPrefix(s, "-H=") <==> |s| >= 3 && s[0] == '-' && s[1] == 'H' && s[2] == '='
  {
    if |s| >= 3 {
      assert s[..3] == [s[0], s[1], s[2]];
    }
  }

  lemma DashStart(s: string)
    ensures HasPrefix(s, "--") <==> |s| >= 2 && s[0] == '-' && s[1] == '-'
  {
    if |s| >= 2 {
      assert s[..2] == [s[0], s[1]];
    }
  }

  // In text whose only '=' stands after a letter other than 'H', and which a blank ends or
  // nothing follows, no endpoint starts.
  lemma NoEndpointAround(a: string, b: string, k: int)
    requires b == "" || (a != "" && IsSpace(a[|a| - 1]))
    requires forall i :: 0 <= i < |a| && i != k ==> a[i] != '='
    requires 1 <= k < |a| ==> a[k - 1] != 'H'
    ensures NoEndpointIn(a, b)
  {
    forall i | 0 <= i < |a| ensures !HasPrefix((a + b)[i..], "-H=") {
      EndpointStart((a + b)[i..]);
    }
  }

  lemma KeywordFacts(item: Item)
    requires !item.Endpoint?
    ensures Keyword(item) != "" && Keyword(item)[|Keyword(item)| - 1] != 'H'
    ensures forall i :: 0 <= i < |Keyword(item)| ==> Keyword(item)[i] != '=' && Keyword(item)[i] != '-'
  {
  }

  lemma OneEquals(x: string, y: string, b: string)
    requires forall i :: 0 <= i < |x| ==> x[i] != '='
    requires forall i :: 0 <= i < |y| ==> y[i] != '='
    requires x != "" && x[|x| - 1] != 'H'
    requires b == "" || (y != "" && IsSpace(y[|y| - 1]))
    ensures NoEndpointIn(x + "=" + y, b)
  {
    NoEndpointAround(x + "=" + y, b, |x|);
  }

  lemma Regrouped(a: string, b: string, c: string)
    ensures a + b + c == a + (b + c)
  {
  }

  lemma QuoteChars(v: string, quoted: bool, c: char)
    requires c != '"' && c !in v
    ensures c !in Quote(v, quoted)
  {
  }

  lemma TlsItemClear(item: Item, gap: string, b: string)
    requires !item.Endpoint? && Printable(item) && Blank(gap) && (b == "" || gap != "")
    ensures NoEndpointIn(PrintItem(item) + gap, b)
  {
    KeywordFacts(item);
    if item.Tls? {
      NoEndpointAround(PrintItem(item) + gap, b, 0);
    } else {
      var x, y := "--" + Keyword(item), Quote(item.value, item.quoted) + gap;
      QuoteChars(item.value, item.quoted, '=');
      forall i | 0 <= i < |x| ensures x[i] != '=' {
        if i >= 2 { assert x[i] == Keyword(item)[i - 2]; }
      }
      forall i | 0 <= i < |y| ensures y[i] != '=' {
        assert y[i] in Quote(item.value, item.quoted) || y[i] in gap;
      }
      OneEquals(x, y, b);
      Regrouped(x + "=", Quote(item.value, item.quoted), gap);
    }
  }

  lemma ThreeParts(a: string, b: string, c: string)
    ensures var s := a + b + c;
            && s[..|a|] == a && s[|a|..] == b + c
            && s[..|a| + |b|] == a + b && s[|a| + |b|..] == c
  {
  }

  lemma {:induction false} ScanHit(s: string, n: nat)
    requires HasPrefix(s, "-H=") && n == 3 + GraphRun(s[3..])
    ensures n <= |s|
    ensures ScanEndpoints(s) == Scan([s[..n]] + ScanEndpoints(s[n..]).matches, ScanEndpoints(s[n..]).rest)
  {
    assert s != "";
    var tail := ScanEndpoints(s[n..]);
    assert ScanEndpoints(s) == Scan([s[..n]] + tail.matches, tail.rest);
  }

  lemma {:induction false} ScanMatch(v: string, b: string)
    requires forall i :: 0 <= i < |v| ==> IsGraph(v[i])
    requires b == "" || !IsGraph(b[0])
    ensures ScanEndpoints("-H=" + v + b) == Scan(["-H=" + v] + ScanEndpoints(b).matches, ScanEndpoints(b).rest)
  {
    var s := "-H=" + v + b;
    ThreeParts("-H=", v, b);
    GraphRunAppend(v, b);
    ScanHit(s, 3 + |v|);
  }

  lemma {:induction false} ScanEndpointItem(item: Item, gap: string, b: string)
    requires item.Endpoint? && Printable(item) && Blank(gap) && (b == "" || gap != "")
    ensures ScanEndpoints(PrintItem(item) + gap + b) ==
              Scan([PrintItem(item)] + ScanEndpoints(b).matches, gap + ScanEndpoints(b).rest)
  {
    var v := Quote(item.value, item.quoted);
    QuotedGraph(item.value, item.quoted);
    assert PrintItem(item) + gap + b == "-H=" + v + (gap + b);
    ScanMatch(v, gap + b);
    NoEndpointAround(gap, b, -1);
    ScanSkip(gap, b);
  }

  lemma PrintEachCons(item: Item, items: seq<Item>)
    ensures PrintEach([item] + items) == [PrintItem(item)] + PrintEach(items)
  {
  }

  lemma {:induction false} ScanPrinted(items: seq<Item>, gaps: seq<string>)
    requires Printed(items, gaps)
    ensures ScanEndpoints(Print(items, gaps)) == Scan(PrintEach(Endpoints(items)), PrintTls(items, gaps))
    decreases |items|
  {
    if items != [] {
      var item, gap := items[0], gaps[0];
      var b := Print(items[1..], gaps[1..]);
      PrintedTail(items, gaps);
      PrintTlsCons(items, gaps);
      ScanPrinted(items[1..], gaps[1..]);
      if item.Endpoint? {
        ScanEndpointItem(item, gap, b);
        PrintEachCons(item, Endpoints(items[1..]));
      } else {
        TlsItemClear(item, gap, b);
        ScanSkip(PrintItem(item) + gap, b);
        assert Endpoints(items) == Endpoints(items[1..]);
      }
    }
  }

  // ---------- splitting the TLS arguments ----------

  // No separator starts inside a when b follows.
  ghost predicate NoSeparatorIn(a: string, b: string) {
    forall i {:trigger (a + b)[i..]} :: 0 <= i < |a| ==> Separator((a + b)[i..]).None?
  }

  lemma {:induction false} SplitSkip(piece: string, a: string, b: string)
    requires NoSeparatorIn(a, b)
    ensures SplitSeparators(piece, a + b) == SplitSeparators(piece + a, b)
    decreases |a|
  {
    var s := a + b;
    if a == "" {
      assert s == b && piece + a == piece;
    } else {
      assert s[0..] == s;
      assert Separator(s).None?;
      assert s[1..] == a[1..] + b;
      forall i | 0 <= i < |a[1..]| ensures Separator((a[1..] + b)[i..]).None? {
        assert (a[1..] + b)[i..] == s[i + 1..];
      }
      SplitSkip(piece + [a[0]], a[1..], b);
      assert piece + [a[0]] + a[1..] == piece + a;
    }
  }

  // Text without "--" that a blank ends, or nothing follows, holds no separator.
  lemma {:induction false} NoSeparator(a: string, b: string)
    requires a != "" && NoDoubleDash(a)
    requires b == "" || IsSpace(a[|a| - 1])
    ensures Separator(a + b).None?
    decreases |a|
  {
    var s := a + b;
    DashStart(s);
    if IsWord(s[0]) {
      assert s[1..] == a[1..] + b;
      if |a| >= 2 {
        forall i | 0 <= i < |a[1..]| - 1 ensures !(a[1..][i] == '-' && a[1..][i + 1] == '-') {
          assert !(a[i + 1] == '-' && a[i + 2] == '-');
        }
        NoSeparator(a[1..], b);
      } else {
        assert b == "" && s[1..] == "";
      }
    }
  }

  lemma NoSeparatorWithin(a: string, b: string)
    requires NoDoubleDash(a)
    requires a == "" || b == "" || IsSpace(a[|a| - 1])
    ensures NoSeparatorIn(a, b)
  {
    forall i | 0 <= i < |a| ensures Separator((a + b)[i..]).None? {
      assert (a + b)[i..] == a[i..] + b;
      forall k | 0 <= k < |a[i..]| - 1 ensures !(a[i..][k] == '-' && a[i..][k + 1] == '-') {
        assert !(a[i + k] == '-' && a[i + k + 1] == '-');
      }
      NoSeparator(a[i..], b);
    }
  }

  lemma NoDoubleDashAppend(a: string, b: string)
    requires NoDoubleDash(a) && NoDoubleDash(b)
    requires a == "" || b == "" || a[|a| - 1] != '-' || b[0] != '-'
    ensures NoDoubleDash(a + b)
  {
    forall i | 0 <= i < |a + b| - 1 ensures !((a + b)[i] == '-' && (a + b)[i + 1] == '-') {
      if i + 1 < |a| {
        assert (a + b)[i] == a[i] && (a + b)[i + 1] == a[i + 1];
      } else if i >= |a| {
        assert (a + b)[i] == b[i - |a|] && (a + b)[i + 1] == b[i + 1 - |a|];
      }
    }
  }

  lemma QuoteNoDoubleDash(v: string, quoted: bool)
    requires NoDoubleDash(v)
    ensures NoDoubleDash(Quote(v, quoted))
  {
    if quoted {
      NoDoubleDashAppend("\"", v);
      NoDoubleDashAppend("\"" + v, "\"");
    }
  }

  lemma ArgNoDoubleDash(item: Item, gap: string)
    requires Printable(item) && !item.Endpoint? && Blank(gap)
    ensures NoDoubleDash(ArgText(item) + gap)
  {
    KeywordFacts(item);
    var key := Keyword(item);
    assert NoDoubleDash(key) && NoDoubleDash(gap);
    assert gap == "" || IsSpace(gap[0]);
    if item.Tls? {
      NoDoubleDashAppend(key, gap);
    } else {
      var quote := Quote(item.value, item.quoted);
      QuoteNoDoubleDash(item.value, item.quoted);
      NoDoubleDashAppend(key, "=");
      NoDoubleDashAppend(key + "=", quote);
      NoDoubleDashAppend(key + "=" + quote, gap);
    }
  }

  // The pieces that the split makes of the printed items, given the text before the first.
  function Pieces(piece: string, items: seq<Item>, gaps: seq<string>): seq<string>
    requires |items| == |gaps|
    decreases |items|
  {
    if items == [] then [piece]
    else if items[0].Endpoint? then Pieces(piece + gaps[0], items[1..], gaps[1..])
    else [piece] + Pieces(ArgText(items[0]) + gaps[0], items[1..], gaps[1..])
  }

  lemma BlankNoDash(gap: string)
    requires Blank(gap)
    ensures NoDoubleDash(gap)
  {
  }

  lemma {:induction false} SplitAtDashes(piece: string, t: string)
    ensures SplitSeparators(piece, "--" + t) == [piece] + SplitSeparators("", t)
  {
    var s := "--" + t;
    DashStart(s);
    assert s[2..] == t;
  }

  lemma {:induction false} SplitPrinted(piece: string, items: seq<Item>, gaps: seq<string>)
    requires Printed(items, gaps)
    ensures SplitSeparators(piece, PrintTls(items, gaps)) == Pieces(piece, items, gaps)
    decreases |items|
  {
    if items != [] {
      var item, gap := items[0], gaps[0];
      var b := PrintTls(items[1..], gaps[1..]);
      PrintedTail(items, gaps);
      PrintTlsCons(items, gaps);
      if item.Endpoint? {
        BlankNoDash(gap);
        NoSeparatorWithin(gap, b);
        SplitSkip(piece, gap, b);
        SplitPrinted(piece + gap, items[1..], gaps[1..]);
      } else {
        var text := ArgText(item) + gap;
        SplitAtDashes(piece, text + b);
        ArgNoDoubleDash(item, gap);
        NoSeparatorWithin(text, b);
        SplitSkip("", text, b);
        assert "" + text == text;
        SplitPrinted(text, items[1..], gaps[1..]);
      }
    }
  }

  // ---------- reading the pieces ----------

  lemma {:induction false} TrimLeftBlank(gap: string, s: string, cut: char -> bool)
    requires forall i :: 0 <= i < |gap| ==> cut(gap[i])
    requires s == "" || !cut(s[0])
    ensures TrimLeft(gap + s, cut) == s
  {
    if gap == "" {
      assert gap + s == s;
    } else {
      assert (gap + s)[1..] == gap[1..] + s;
      TrimLeftBlank(gap[1..], s, cut);
    }
  }

  lemma {:induction false} TrimRightBlank(s: string, gap: string, cut: char -> bool)
    requires forall i :: 0 <= i < |gap| ==> cut(gap[i])
    requires s == "" || !cut(s[|s| - 1])
    ensures TrimRight(s + gap, cut) == s
  {
    if gap == "" {
      assert s + gap == s;
    } else {
      assert (s + gap)[..|s + gap| - 1] == s + gap[..|gap| - 1];
      TrimRightBlank(s, gap[..|gap| - 1], cut);
    }
  }

  lemma TrimAround(a: string, s: string, b: string, cut: char -> bool)
    requires forall i :: 0 <= i < |a| ==> cut(a[i])
    requires forall i :: 0 <= i < |b| ==> cut(b[i])
    requires s != "" ==> !cut(s[0]) && !cut(s[|s| - 1])
    ensures Trim(a + s + b, cut) == s
  {
    if s == "" {
      assert a + s + b == (a + b) + "";
      TrimLeftBlank(a + b, "", cut);
    } else {
      assert a + s + b == a + (s + b);
      TrimLeftBlank(a, s + b, cut);
      TrimRightBlank(s, b, cut);
    }
  }

  lemma TrimValue(v: string, q: bool, gap: string)
    requires PlainPathValue(v) && Blank(gap)
    ensures Trim(TrimSpace(Quote(v, q) + gap), c => QuoteOrBlank(c)) == v
  {
    assert forall i :: 0 <= i < |gap| ==> (c => IsSpace(c))(gap[i]);
    assert "" + Quote(v, q) + gap == Quote(v, q) + gap;
    TrimAround("", Quote(v, q), gap, c => IsSpace(c));
    var quote := if q then "\"" else "";
    assert quote + v + quote == Quote(v, q);
    if v != "" {
      assert v[0] != '"' && v[|v| - 1] != '"';
    }
    TrimAround(quote, v, quote, c => QuoteOrBlank(c));
  }

  lemma {:induction false} SplitKeyValue(key: string, val: string)
    requires '=' !in key && '=' !in val
    ensures Split(key + "=" + val, '=') == [key, val]
  {
    assert key + "=" + val == key + ['='] + val;
    SplitAppend(key, val, '=');
    SplitAbsent(key, '=');
    SplitAbsent(val, '=');
  }

  lemma TrimKeyword(item: Item)
    ensures TrimSpace(Keyword(item)) == Keyword(item)
  {
    TrimAround("", Keyword(item), "", c => IsSpace(c));
    assert "" + Keyword(item) + "" == Keyword(item);
  }

  lemma {:induction false} AssignMeaning(config: Config, item: Item)
    requires !item.Endpoint? && !item.Tls?
    ensures Assign(config, Keyword(item), item.value) == Meaning(config, [item])
  {
    assert [item][1..] == [];
  }

  lemma BlankWithout(s: string, gap: string, c: char)
    requires c !in s && Blank(gap) && !IsSpace(c)
    ensures c !in s + gap
  {
    forall i | 0 <= i < |s + gap| ensures (s + gap)[i] != c {
      if i >= |s| {
        assert IsSpace(gap[i - |s|]);
      }
    }
  }

  lemma {:induction false} ArgSplits(item: Item, gap: string)
    requires Printable(item) && !item.Endpoint? && !item.Tls? && Blank(gap)
    ensures Split(ArgText(item) + gap, '=') == [Keyword(item), Quote(item.value, item.quoted) + gap]
  {
    var quote := Quote(item.value, item.quoted);
    KeywordFacts(item);
    QuoteChars(item.value, item.quoted, '=');
    BlankWithout(quote, gap, '=');
    Regrouped(Keyword(item) + "=", quote, gap);
    SplitKeyValue(Keyword(item), quote + gap);
  }

  lemma {:induction false} ApplyPiece(config: Config, item: Item, gap: string)
    requires Printable(item) && !item.Endpoint? && Blank(gap)
    ensures ApplyArg(config, ArgText(item) + gap) == Meaning(config, [item])
  {
    if item.Tls? {
      assert [item][1..] == [];
      SplitAbsent(ArgText(item) + gap, '=');
    } else {
      ArgSplits(item, gap);
      TrimValue(item.value, item.quoted, gap);
      TrimKeyword(item);
      AssignMeaning(config, item);
    }
  }

  lemma {:induction false} MeaningCons(config: Config, items: seq<Item>)
    requires items != []
    ensures Meaning(config, items) == Meaning(Meaning(config, [items[0]]), items[1..])
  {
    assert [items[0]][1..] == [];
  }

  // Pieces that start with an argument and the blanks after it.
  lemma {:induction false} ApplyPieces(config: Config, item: Item, gap: string, items: seq<Item>, gaps: seq<string>)
    requires Printable(item) && !item.Endpoint? && Blank(gap) && Printed(items, gaps)
    ensures ApplyArgs(config, Pieces(ArgText(item) + gap, items, gaps)) == Meaning(Meaning(config, [item]), items)
    decreases |items|
  {
    var piece := ArgText(item) + gap;
    ApplyPiece(config, item, gap);
    var c := Meaning(config, [item]);
    if items == [] {
      assert [piece][1..] == [];
    } else {
      MeaningCons(c, items);
      PrintedTail(items, gaps);
      if items[0].Endpoint? {
        assert piece + gaps[0] == ArgText(item) + (gap + gaps[0]);
        ApplyPieces(config, item, gap + gaps[0], items[1..], gaps[1..]);
        assert [items[0]][1..] == [];
      } else {
        var rest := Pieces(ArgText(items[0]) + gaps[0], items[1..], gaps[1..]);
        assert ([piece] + rest)[1..] == rest;
        ApplyPieces(c, items[0], gaps[0], items[1..], gaps[1..]);
      }
    }
  }

  // Pieces that start with blanks only.
  lemma {:induction false} ApplyBlankPieces(config: Config, blanks: string, items: seq<Item>, gaps: seq<string>)
    requires Blank(blanks) && Printed(items, gaps)
    ensures ApplyArgs(config, Pieces(blanks, items, gaps)) == Meaning(config, items)
    decreases |items|
  {
    SplitAbsent(blanks, '=');
    if items == [] {
      assert [blanks][1..] == [];
    } else {
      MeaningCons(config, items);
      PrintedTail(items, gaps);
      if items[0].Endpoint? {
        ApplyBlankPieces(config, blanks + gaps[0], items[1..], gaps[1..]);
        assert [items[0]][1..] == [];
      } else {
        var rest := Pieces(ArgText(items[0]) + gaps[0], items[1..], gaps[1..]);
        assert ([blanks] + rest)[1..] == rest;
        ApplyPieces(config, items[0], gaps[0], items[1..], gaps[1..]);
      }
    }
  }

  lemma EndpointValue(item: Item)
    requires item.Endpoint? && Printable(item)
    ensures Split(PrintItem(item), '=') == ["-H", Quote(item.value, item.quoted)]
    ensures Without(Quote(item.value, item.quoted), '"') == item.value
  {
    var v, q := item.value, item.quoted;
    QuotedGraph(v, q);
    assert PrintItem(item) == "-H" + ['='] + Quote(v, q);
    SplitAppend("-H", Quote(v, q), '=');
    SplitAbsent(Quote(v, q), '=');
    SplitAbsent("-H", '=');
    WithoutAbsent(v, '"');
    if q {
      WithoutLast(v);
      assert Quote(v, q)[1..] == v + "\"";
    }
  }

  lemma {:induction false} WithoutLast(v: string)
    requires '"' !in v
    ensures Without(v + "\"", '"') == v
  {
    if v == "" {
      assert v + "\"" == "\"";
    } else {
      assert (v + "\"")[1..] == v[1..] + "\"";
      WithoutLast(v[1..]);
    }
  }

  // Printed items are read back as what they mean, for any number of items in any order, when
  // there is exactly one endpoint among them; with none or several the output is refused.
  lemma {:induction false} ParsePrinted(items: seq<Item>, gaps: seq<string>)
    requires Printed(items, gaps)
    ensures Parse(Print(items, gaps)) ==
              if |Endpoints(items)| == 1 && Endpoints(items)[0].Endpoint?
              then Some(Meaning(Config(Endpoints(items)[0].value, "", "", ""), items))
              else None
  {
    ScanPrinted(items, gaps);
    SplitPrinted("", items, gaps);
    var ends := Endpoints(items);
    if |ends| == 1 {
      EndpointsPrintable(items);
      EndpointValue(ends[0]);
      ApplyBlankPieces(Config(ends[0].value, "", "", ""), "", items, gaps);
    }
  }

  lemma {:induction false} EndpointsPrintable(items: seq<Item>)
    requires forall i :: 0 <= i < |items| ==> Printable(items[i])
    ensures forall i :: 0 <= i < |Endpoints(items)| ==> Endpoints(items)[i].Endpoint? && Printable(Endpoints(items)[i])
  {
    if items != [] {
      EndpointsPrintable(items[1..]);
    }
  }

  lemma {:induction false} OneEndpoint(items: seq<Item>, e: Item)
    requires e.Endpoint? && multiset(items)[e] == 1
    requires forall x :: x in items && x.Endpoint? ==> x == e
    ensures Endpoints(items) == [e]
  {
    EndpointsOf(items, e);
  }

  lemma {:induction false} ItemsRoundTrip(items: seq<Item>, gaps: seq<string>, e: Item, a: Item, c: Item, k: Item)
    requires Printed(items, gaps) && e.Endpoint? && a.CaCert? && c.Cert? && k.Key?
    requires multiset(items) == multiset{e, a, c, k, Tls}
    ensures Parse(Print(items, gaps)) == Some(Config(e.value, a.value, c.value, k.value))
  {
    FiveItems(items, e, a, c, k);
    OneEndpoint(items, e);
    ParseOne(items, gaps, e);
    MeaningOf(Config(e.value, "", "", ""), items, a, c, k);
  }

  // docker-machine's own output: an endpoint, the three TLS paths and a bare --tls, in any
  // order, each value quoted or not.
  lemma {:induction false} ConnectionRoundTrip(config: Config, quoted: (bool, bool, bool, bool), items: seq<Item>,
      gaps: seq<string>)
    requires Printed(items, gaps)
    requires multiset(items) == multiset{Endpoint(config.endpoint, quoted.0), CaCert(config.caCert, quoted.1),
                                         Cert(config.cert, quoted.2), Key(config.key, quoted.3), Tls}
    ensures Parse(Print(items, gaps)) == Some(config)
  {
    var e, a, c, k := Endpoint(config.endpoint, quoted.0), CaCert(config.caCert, quoted.1),
        Cert(config.cert, quoted.2), Key(config.key, quoted.3);
    ItemsRoundTrip(items, gaps, e, a, c, k);
  }

  lemma {:induction false} ParseOne(items: seq<Item>, gaps: seq<string>, e: Item)
    requires Printed(items, gaps) && e.Endpoint? && Endpoints(items) == [e]
    ensures Parse(Print(items, gaps)) == Some(Meaning(Config(e.value, "", "", ""), items))
  {
    ParsePrinted(items, gaps);
  }

  lemma FiveItems(items: seq<Item>, e: Item, a: Item, c: Item, k: Item)
    requires e.Endpoint? && a.CaCert? && c.Cert? && k.Key?
    requires multiset(items) == multiset{e, a, c, k, Tls}
    ensures forall x :: x in items ==> x == e || x == a || x == c || x == k || x == Tls
    ensures multiset(items)[e] == 1 && a in items && c in items && k in items
  {
    forall x | x in items ensures x == e || x == a || x == c || x == k || x == Tls {
      assert x in multiset(items);
    }
    assert a in multiset(items) && c in multiset(items) && k in multiset(items);
  }

  lemma MultisetHead(items: seq<Item>)
    requires items != []
    ensures multiset(items) == multiset{items[0]} + multiset(items[1..])
  {
    assert items == [items[0]] + items[1..];
  }

  lemma {:induction false} EndpointsOf(items: seq<Item>, e: Item)
    requires e.Endpoint?
    requires forall x :: x in items && x.Endpoint? ==> x == e
    ensures |Endpoints(items)| == multiset(items)[e]
    ensures forall i :: 0 <= i < |Endpoints(items)| ==> Endpoints(items)[i] == e
    decreases |items|
  {
    if items != [] {
      MultisetHead(items);
      EndpointsOf(items[1..], e);
      assert items[0] in items;
    }
  }

  lemma {:induction false} MeaningOf(config: Config, items: seq<Item>, a: Item, c: Item, k: Item)
    requires a.CaCert? && c.Cert? && k.Key?
    requires forall x :: x in items && x.CaCert? ==> x == a
    requires forall x :: x in items && x.Cert? ==> x == c
    requires forall x :: x in items && x.Key? ==> x == k
    ensures Meaning(config, items) == Config(config.endpoint,
                                             if a in items then a.value else config.caCert,
                                             if c in items then c.value else config.cert,
                                             if k in items then k.value else config.key)
    decreases |items|
  {
    if items != [] {
      MeaningCons(config, items);
      var next := Meaning(config, [items[0]]);
      assert [items[0]][1..] == [];
      MeaningOf(next, items[1..], a, c, k);
      assert items[0] in items;
    }
  }
}
