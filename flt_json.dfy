/** The JSON filter of src/flt_json.c: the data handlers that decide how
    many of the available bytes of a channel may be forwarded, and the
    keyword parser that picks one of them. */
module FltJson {
  import opened Wrappers
  import opened Ring
  import opened ByteStream
  import opened Channels
  import opened NewlineScan
  import opened RecordDriver

  /** enum json_version, in declaration order: a zeroed configuration
      selects the first one. */
  datatype Version = JsonParser | JsonNoop | JsonNewline | JsonNewlineSimd

  /** The functions json_ops.tcp_data can point at. */
  datatype Handler = ParserHandler | NoopHandler | NewlineHandler | NewlineSimdHandler

  /** What a data handler returns (the number of bytes that may be
      forwarded) and whether it asks for the stream task to be woken. */
  datatype Verdict = Verdict(ret: nat, wakeup: bool)

  /** struct json_config without the proxy back-pointer. */
  class JsonConfig {
    var name: Option<string>
    var version: Version
    var statsRecordsParsed: int
    var statsRecordsFailed: int

    /** The configuration as calloc hands it out: every field zero. */
    constructor ()
      ensures name == None && version == JsonParser
      ensures statsRecordsParsed == 0 && statsRecordsFailed == 0
    {
      name := None;
      version := JsonParser;
      statsRecordsParsed := 0;
      statsRecordsFailed := 0;
    }
  }

  /** The filter operations json_ops; only the data handler is modelled. */
  class FilterOps {
    var tcpData: Handler

    /** The static initialiser points tcp_data at the parser handler. */
    constructor ()
      ensures tcpData == ParserHandler
    {
      tcpData := ParserHandler;
    }
  }

  /** What each handler lets through and counts for the available bytes `d`. */
  function HandlerTally(h: Handler, parser: Parser, d: seq<Byte>): (t: Tally)
  {
    match h
    case ParserHandler => JsonRecords(parser, d)
    case NoopHandler => Tally(|d|, 0, 0)
    case NewlineHandler => Tally(NewlineEnd(d, |d|), NewlineCount(d, |d|), 0)
    case NewlineSimdHandler => Tally(NewlineEnd(d, |d|), NewlineCount(d, |d|), 0)
  }

  /** No handler forwards more than is available, at most one record fails
      per call, and a call that forwards everything leaves no failure. */
  lemma HandlerBounds(h: Handler, parser: Parser, d: seq<Byte>)
    ensures HandlerTally(h, parser, d).consumed <= |d|
    ensures HandlerTally(h, parser, d).failed <= 1
    ensures d != [] && HandlerTally(h, parser, d).consumed == |d| ==> HandlerTally(h, parser, d).failed == 0
  {
  }

  /** The newline handlers forward up to and including the last newline and
      count the newlines; only the parser handler counts failures. */
  lemma NewlineHandlerTally(h: Handler, parser: Parser, d: seq<Byte>)
    requires h == NewlineHandler || h == NewlineSimdHandler
    ensures var t := HandlerTally(h, parser, d);
            t.failed == 0 &&
            (t.consumed > 0 ==> d[t.consumed - 1] == NL) &&
            (forall j :: t.consumed <= j < |d| ==> d[j] != NL) &&
            (t.consumed == 0 <==> t.parsed == 0)
  {
    NewlineEndIsLast(d, |d|);
    NewlinesBeforeEnd(d, |d|);
  }

  /** json_tcp_data_parser: forward the bytes of the records that parsed,
      add the call's counts to the statistics, and ask for a wake-up when
      something is held back. */
  method JsonTcpDataParser(conf: JsonConfig, ch: Channel, parser: Parser) returns (v: Verdict)
    requires ch.Valid()
    modifies conf
    ensures var t := JsonRecords(parser, ch.Data());
            v == Verdict(t.consumed, t.consumed != ch.avail) &&
            conf.statsRecordsParsed == old(conf.statsRecordsParsed) + t.parsed &&
            conf.statsRecordsFailed == old(conf.statsRecordsFailed) + t.failed
    ensures conf.name == old(conf.name) && conf.version == old(conf.version)
  {
    if ch.avail == 0 {
      return Verdict(0, false);
    }
    var ret, parsedRecords, failedRecords := ScanJsonRecords(ch, parser);
    conf.statsRecordsParsed := conf.statsRecordsParsed + parsedRecords;
    conf.statsRecordsFailed := conf.statsRecordsFailed + failedRecords;
    v := Verdict(ret, ret != ch.avail);
  }

  /** json_tcp_data_newline: forward up to the last newline, byte by byte. */
  method JsonTcpDataNewline(conf: JsonConfig, ch: Channel) returns (v: Verdict)
    requires ch.Valid()
    modifies conf
    ensures var d := ch.Data();
            v == Verdict(NewlineEnd(d, ch.avail), NewlineEnd(d, ch.avail) != ch.avail) &&
            conf.statsRecordsParsed == old(conf.statsRecordsParsed) + NewlineCount(d, ch.avail)
    ensures conf.statsRecordsFailed == old(conf.statsRecordsFailed)
    ensures conf.name == old(conf.name) && conf.version == old(conf.version)
  {
    if ch.avail == 0 {
      return Verdict(0, false);
    }
    var ret, parsedRecords := ScanNewlines(ch);
    conf.statsRecordsParsed := conf.statsRecordsParsed + parsedRecords;
    v := Verdict(ret, ret != ch.avail);
  }

  /** json_tcp_data_newline_simd: the same result through memchr. */
  method JsonTcpDataNewlineSimd(conf: JsonConfig, ch: Channel) returns (v: Verdict)
    requires ch.Valid()
    modifies conf
    ensures var d := ch.Data();
            v == Verdict(NewlineEnd(d, ch.avail), NewlineEnd(d, ch.avail) != ch.avail) &&
            conf.statsRecordsParsed == old(conf.statsRecordsParsed) + NewlineCount(d, ch.avail)
    ensures conf.statsRecordsFailed == old(conf.statsRecordsFailed)
    ensures conf.name == old(conf.name) && conf.version == old(conf.version)
  {
    if ch.avail == 0 {
      return Verdict(0, false);
    }
    var ret, parsedRecords := ScanNewlinesSimd(ch);
    conf.statsRecordsParsed := conf.statsRecordsParsed + parsedRecords;
    v := Verdict(ret, ret != ch.avail);
  }

  /** json_tcp_data_noop: everything available may go, and the wake-up test
      never fires. */
  function JsonTcpDataNoop(avail: nat): (v: Verdict)
    ensures v.ret == avail && !v.wakeup
  {
    var ret := avail;
    Verdict(ret, ret != avail)
  }

  /** json_tcp_forward_data: everything offered is forwarded, without a
      wake-up. */
  function JsonTcpForwardData(len: nat): (v: Verdict)
    ensures v.ret == len && !v.wakeup
  {
    var ret := len;
    Verdict(ret, ret != len)
  }

  /** A call of json_ops.tcp_data: the selected handler runs. */
  method TcpData(ops: FilterOps, conf: JsonConfig, ch: Channel, parser: Parser) returns (v: Verdict)
    requires ch.Valid()
    modifies conf
    ensures var t := HandlerTally(ops.tcpData, parser, ch.Data());
            v == Verdict(t.consumed, t.consumed != ch.avail) &&
            conf.statsRecordsParsed == old(conf.statsRecordsParsed) + t.parsed &&
            conf.statsRecordsFailed == old(conf.statsRecordsFailed) + t.failed
    ensures conf.name == old(conf.name) && conf.version == old(conf.version)
  {
    match ops.tcpData
    case ParserHandler => v := JsonTcpDataParser(conf, ch, parser);
    case NoopHandler => v := JsonTcpDataNoop(ch.avail);
    case NewlineHandler => v := JsonTcpDataNewline(conf, ch);
    case NewlineSimdHandler => v := JsonTcpDataNewlineSimd(conf, ch);
  }

  /** The argument at index `i`: the configuration words are followed by
      empty strings. */
  function Arg(args: seq<string>, i: nat): string
  {
    if i < |args| then args[i] else ""
  }

  /** The words the option loop acts on. */
  predicate IsKeyword(w: string)
  {
    w == "name" || w == "noop" || w == "newline" || w == "newlinesimd"
  }

  /** Where the option loop ends: at the first word it does not act on,
      with the version and name it collected, or at a `name` without a
      value. */
  datatype Options = Stopped(pos: nat, version: Version, name: Option<string>) | MissingValue(pos: nat)

  /** The option loop of parse_json_flt from word `pos`, with the version
      and name collected so far. */
  function ScanOptions(args: seq<string>, pos: nat, version: Version, name: Option<string>): (r: Options)
    ensures pos <= r.pos
    ensures r.Stopped? ==> !IsKeyword(Arg(args, r.pos))
    ensures r.MissingValue? ==> Arg(args, r.pos) == "name" && Arg(args, r.pos + 1) == ""
    decreases |args| - pos
  {
    var w := Arg(args, pos);
    if w == "name" then
      if Arg(args, pos + 1) == "" then MissingValue(pos)
      else ScanOptions(args, pos + 2, version, Some(Arg(args, pos + 1)))
    else if w == "noop" then ScanOptions(args, pos + 1, JsonNoop, name)
    else if w == "newline" then ScanOptions(args, pos + 1, JsonNewline, name)
    else if w == "newlinesimd" then ScanOptions(args, pos + 1, JsonNewlineSimd, name)
    else Stopped(pos, version, name)
  }

  /** The version the option words from `pos` set, if any: a version word
      counts unless a later one follows. */
  function VersionSet(args: seq<string>, pos: nat): Option<Version>
    decreases |args| - pos
  {
    var w := Arg(args, pos);
    if w == "name" then
      if Arg(args, pos + 1) == "" then None else VersionSet(args, pos + 2)
    else if w == "noop" || w == "newline" || w == "newlinesimd" then
      match VersionSet(args, pos + 1)
      case Some(later) => Some(later)
      case None => Some(if w == "noop" then JsonNoop else if w == "newline" then JsonNewline else JsonNewlineSimd)
    else None
  }

  /** The name the option words from `pos` set, if any: the value after
      the last `name`. */
  function NameSet(args: seq<string>, pos: nat): Option<string>
    decreases |args| - pos
  {
    var w := Arg(args, pos);
    if w == "name" then
      if Arg(args, pos + 1) == "" then None
      else
        match NameSet(args, pos + 2)
        case Some(later) => Some(later)
        case None => Some(Arg(args, pos + 1))
    else if w == "noop" || w == "newline" || w == "newlinesimd" then NameSet(args, pos + 1)
    else None
  }

  /** The last version word and the last name win; the values the loop
      starts with survive only when no word sets them. */
  lemma {:induction false} LastSettingWins(args: seq<string>, pos: nat, version: Version, name: Option<string>)
    requires ScanOptions(args, pos, version, name).Stopped?
    ensures var r := ScanOptions(args, pos, version, name);
            r.version == (if VersionSet(args, pos).Some? then VersionSet(args, pos).value else version) &&
            r.name == (if NameSet(args, pos).Some? then NameSet(args, pos) else name)
    decreases |args| - pos
  {
    var w := Arg(args, pos);
    if w == "name" {
      LastSettingWins(args, pos + 2, version, Some(Arg(args, pos + 1)));
    } else if w == "noop" {
      LastSettingWins(args, pos + 1, JsonNoop, name);
    } else if w == "newline" {
      LastSettingWins(args, pos + 1, JsonNewline, name);
    } else if w == "newlinesimd" {
      LastSettingWins(args, pos + 1, JsonNewlineSimd, name);
    }
  }

  /** The handler json_ops.tcp_data gets for each version. */
  function HandlerFor(v: Version): (h: Handler)
    ensures h == ParserHandler <==> v == JsonParser
    ensures h == NoopHandler <==> v == JsonNoop
    ensures h == NewlineHandler <==> v == JsonNewline
    ensures h == NewlineSimdHandler <==> v == JsonNewlineSimd
  {
    match v
    case JsonParser => ParserHandler
    case JsonNoop => NoopHandler
    case JsonNewline => NewlineHandler
    case JsonNewlineSimd => NewlineSimdHandler
  }

  /** parse_json_flt: read the `json` keyword and its options from
      `args[curArg]` on, and point json_ops.tcp_data at the handler of the
      selected version. Returns the status, the new `*cur_arg` and the
      configuration. */
  method ParseJsonFlt(args: seq<string>, curArg: nat, ops: FilterOps)
    returns (rc: int, curArgOut: nat, conf: JsonConfig)
    modifies ops
    ensures fresh(conf)
    ensures conf.statsRecordsParsed == 0 && conf.statsRecordsFailed == 0
    ensures Arg(args, curArg) != "json" ==>
              rc == 0 && curArgOut == curArg && ops.tcpData == old(ops.tcpData) &&
              conf.version == JsonParser && conf.name == None
    ensures Arg(args, curArg) == "json" ==>
              match ScanOptions(args, curArg + 1, JsonParser, None)
              case MissingValue(_) =>
                rc == -1 && curArgOut == curArg && ops.tcpData == old(ops.tcpData)
              case Stopped(pos, version, name) =>
                rc == 0 && curArgOut == pos && conf.version == version && conf.name == name &&
                ops.tcpData == HandlerFor(version)
  {
    conf := new JsonConfig();
    rc, curArgOut := 0, curArg;
    var pos := curArg;
    if Arg(args, pos) == "json" {
      pos := pos + 1;
      while Arg(args, pos) != ""
        invariant curArg < pos
        invariant ScanOptions(args, pos, conf.version, conf.name) ==
                  ScanOptions(args, curArg + 1, JsonParser, None)
        invariant conf.statsRecordsParsed == 0 && conf.statsRecordsFailed == 0
        invariant ops.tcpData == old(ops.tcpData)
        decreases |args| - pos
      {
        if Arg(args, pos) == "name" {
          if Arg(args, pos + 1) == "" {
            rc := -1;
            return;
          }
          conf.name := Some(Arg(args, pos + 1));
          pos := pos + 1;
        } else if Arg(args, pos) == "noop" {
          conf.version := JsonNoop;
        } else if Arg(args, pos) == "newline" {
          conf.version := JsonNewline;
        } else if Arg(args, pos) == "newlinesimd" {
          conf.version := JsonNewlineSimd;
        } else {
          break;
        }
        pos := pos + 1;
      }
      curArgOut := pos;
      ops.tcpData := ParserHandler;
      if conf.version == JsonNoop {
        ops.tcpData := NoopHandler;
      }
      if conf.version == JsonNewline {
        ops.tcpData := NewlineHandler;
      }
      if conf.version == JsonNewlineSimd {
        ops.tcpData := NewlineSimdHandler;
      }
    }
  }
}
