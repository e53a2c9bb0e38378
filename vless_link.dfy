/**
 * `parse_vless_url` (main.py:59-162): a `vless://` share link becomes a profile name, the
 * Xray document for it and its summary.
 *
 * After the scheme, the link text is cut at the first `#` (comment), then at the first
 * `@` (uuid), then at the first `?` (query), then at the first `:` (host and port text).
 * The port text goes through `int()` and the query through `parse_qs`.
 */
module VlessLink {
  import opened Wrappers
  import opened PyStr
  import opened PyInt
  import opened Percent
  import opened Query
  import opened XrayConfig

  const SCHEME := "vless://"

  /** The profile name of a link without a comment. */
  const UNNAMED := "Без имени"

  /** Why a link was refused: each is a `ValueError` in the source. */
  datatype ParseError =
    | NotVless              // no `vless://` prefix (main.py:60-61)
    | MissingPort           // no `:` in the host-and-port part (main.py:73-74)
    | BadPort(text: string) // `int()` refused the port text (main.py:76)

  /** What the parser returns: `(profile_name, config, info)`. */
  datatype Parsed = Parsed(name: string, config: Config, info: Summary)

  /** The five pieces cut from the text after the scheme. */
  datatype LinkParts = LinkParts(uuid: string, host: string, portText: string, query: string, comment: string)

  /** The separators each piece cannot contain, given where the parser cuts. */
  predicate Separated(p: LinkParts) {
    && '#' !in p.uuid && '#' !in p.host && '#' !in p.portText && '#' !in p.query
    && '@' !in p.uuid
    && '?' !in p.host && '?' !in p.portText
    && ':' !in p.host
  }

  /**
   * The text after the scheme for the given pieces. `withQuery` and `withComment` say
   * whether the `?` and `#` separators are written.
   */
  function Assemble(p: LinkParts, withQuery: bool, withComment: bool): string {
    p.uuid + "@" + p.host + ":" + p.portText + Optional('?', p.query, withQuery) + Optional('#', p.comment, withComment)
  }

  /** The text after the first `@` and before the first `#`: `server_part`. */
  function ServerPart(full: string): string {
    Partition(Partition(full, '#').0, '@').1
  }

  /** The text before the first `?` of the server part: `host_port`. */
  function HostPort(full: string): string {
    Partition(ServerPart(full), '?').0
  }

  /** The cuts of main.py:63-75, or `None` when the host-and-port part has no `:`. */
  function Pieces(full: string): (r: Option<LinkParts>)
    ensures r.None? <==> ':' !in HostPort(full)
    ensures r.Some? ==> Separated(r.value)
  {
    var (base, comment) := Partition(full, '#');
    var (uuid, serverPart) := Partition(base, '@');
    var (hostPort, query) := Partition(serverPart, '?');
    PartitionInfix(full, '#');
    PartitionInfix(base, '@');
    PartitionInfix(serverPart, '?');
    if ':' !in hostPort then None
    else
      var (host, portText) := Partition(hostPort, ':');
      PartitionInfix(hostPort, ':');
      Some(LinkParts(uuid, host, portText, query, comment))
  }

  /** The two sides of a partition hold only characters of the partitioned text. */
  lemma PartitionInfix(s: string, c: char)
    ensures forall x :: x in Partition(s, c).0 ==> x in s
    ensures forall x :: x in Partition(s, c).1 ==> x in s
  {
    var (a, b) := Partition(s, c);
    if c in s {
      assert forall x :: x in a ==> x in s by {
        forall x | x in a ensures x in s {
          var k :| 0 <= k < |a| && a[k] == x;
          assert s[k] == x;
        }
      }
      assert forall x :: x in b ==> x in s by {
        forall x | x in b ensures x in s {
          var k :| 0 <= k < |b| && b[k] == x;
          assert s[|a| + 1 + k] == x;
        }
      }
    }
  }

  /** The descriptor `get_param` fills in from the query: main.py:79-80 and 102-121. */
  function EndpointOf(p: LinkParts, port: int): Endpoint {
    var params := ParseQs(p.query);
    FirstValueWins(p.query, "", "");
    Endpoint(
      p.uuid, p.host, port,
      GetParam(params, "flow", ""),
      GetParam(params, "type", "tcp"),
      GetParam(params, "sni", ""),
      GetParam(params, "pbk", ""),
      GetParam(params, "sid", ""),
      GetParam(params, "fp", "chrome"))
  }

  /** `unquote(comment) if comment else "Без имени"` (main.py:82). */
  function NameOf(comment: string): string {
    if comment != "" then Unquote(comment) else UNNAMED
  }

  /** `parse_vless_url(url)`: the parsed profile, or the reason the link is refused. */
  function ParseVlessUrl(url: string): (r: Result<Parsed, ParseError>)
    ensures r.Success? ==> SCHEME <= url
    ensures r.Success? ==> r.value.info.protocol == "VLESS" && r.value.info.security == "REALITY"
  {
    if !(SCHEME <= url) then Failure(NotVless)
    else
      match Pieces(url[|SCHEME|..])
      case None => Failure(MissingPort)
      case Some(p) =>
        match ParseInt(p.portText)
        case None => Failure(BadPort(p.portText))
        case Some(port) =>
          var ep := EndpointOf(p, port);
          Success(Parsed(NameOf(p.comment), Synthesise(ep), Summarise(ep)))
  }

  /**
   * The document of every accepted link has the fixed shape and consistent routing, and the
   * loader reads the parse-time summary back from it (with `security` in lower case).
   */
  lemma ParsedDocument(url: string)
    requires ParseVlessUrl(url).Success?
    ensures var p := ParseVlessUrl(url).value;
      && FixedShape(p.config) && RoutesResolve(p.config) && PrecedenceOrdered(p.config.routing.rules)
      && Reconstruct(p.config) == Some(p.info.(security := "reality"))
  {
    var parts := Pieces(url[|SCHEME|..]).value;
    var ep := EndpointOf(parts, ParseInt(parts.portText).value);
    SynthesisedShape(ep);
    SummaryRoundTrip(ep);
  }

  /**
   * Each setting is the value of the first query field naming its key, or the key's
   * default: `flow`, `sni`, `pbk` and `sid` default to empty, `type` to `tcp` and
   * `fp` to `chrome`.
   */
  lemma EndpointDefaults(p: LinkParts, port: int)
    ensures var ep := EndpointOf(p, port); var pairs := ParseQsl(p.query);
      && ep.uuid == p.uuid && ep.host == p.host && ep.port == port
      && ep.flow == FirstValue(pairs, "flow").GetOr("")
      && ep.network == FirstValue(pairs, "type").GetOr("tcp")
      && ep.sni == FirstValue(pairs, "sni").GetOr("")
      && ep.publicKey == FirstValue(pairs, "pbk").GetOr("")
      && ep.shortId == FirstValue(pairs, "sid").GetOr("")
      && ep.fingerprint == FirstValue(pairs, "fp").GetOr("chrome")
  {
    FirstValueWins(p.query, "flow", "");
    FirstValueWins(p.query, "type", "tcp");
    FirstValueWins(p.query, "sni", "");
    FirstValueWins(p.query, "pbk", "");
    FirstValueWins(p.query, "sid", "");
    FirstValueWins(p.query, "fp", "chrome");
  }

  /**
   * The parser recovers the pieces a link was assembled from, provided no piece holds a
   * separator that an earlier cut would find first.
   */
  lemma PiecesAssemble(p: LinkParts, withQuery: bool, withComment: bool)
    requires Separated(p)
    requires withQuery || p.query == ""
    requires withComment || p.comment == ""
    ensures Pieces(Assemble(p, withQuery, withComment)) == Some(p)
  {
    var hostPort := p.host + ":" + p.portText;
    var serverPart := hostPort + Optional('?', p.query, withQuery);
    var base := p.uuid + "@" + serverPart;
    var full := base + Optional('#', p.comment, withComment);
    assert full == Assemble(p, withQuery, withComment);
    assert '#' !in base;
    CutAt(base, '#', p.comment, withComment);
    assert base == p.uuid + ['@'] + serverPart;
    PartitionAt(p.uuid, '@', serverPart);
    assert '?' !in hostPort;
    CutAt(hostPort, '?', p.query, withQuery);
    assert hostPort == p.host + [':'] + p.portText;
    PartitionAt(p.host, ':', p.portText);
  }

  /**
   * Every text the cuts accept is the assembly of its pieces: with `PiecesAssemble`, the
   * cuts and `Assemble` are inverse, so the lemmas about assembled links cover every link.
   */
  lemma PiecesDisassemble(full: string)
    requires Pieces(full).Some?
    ensures var p := Pieces(full).value; var withQuery := '?' in ServerPart(full);
      && (withQuery || p.query == "")
      && ('#' in full || p.comment == "")
      && full == Assemble(p, withQuery, '#' in full)
  {
    var p := Pieces(full).value;
    var base := Partition(full, '#').0;
    var serverPart := ServerPart(full);
    var hostPort := HostPort(full);
    PartitionRejoin(full, '#');
    PartitionRejoin(serverPart, '?');
    assert '@' in base;
    assert base == p.uuid + ['@'] + serverPart;
    assert hostPort == p.host + [':'] + p.portText;
    AssembleNested(p, '?' in serverPart, '#' in full);
  }

  /** A text is what comes before its first `c`, then `c` and the rest when it occurs. */
  lemma PartitionRejoin(s: string, c: char)
    ensures s == Partition(s, c).0 + Optional(c, Partition(s, c).1, c in s)
  {
  }

  /** `Assemble` grouped the way the cuts take a link apart. */
  lemma AssembleNested(p: LinkParts, withQuery: bool, withComment: bool)
    ensures Assemble(p, withQuery, withComment)
      == (p.uuid + ['@'] + ((p.host + [':'] + p.portText) + Optional('?', p.query, withQuery)))
         + Optional('#', p.comment, withComment)
  {
  }

  /** `c + tail` when `present`, else nothing. */
  function Optional(c: char, tail: string, present: bool): string {
    if present then [c] + tail else ""
  }

  /** Cutting at an optional trailing separator gives back the text before it and the tail. */
  lemma CutAt(a: string, c: char, tail: string, present: bool)
    requires c !in a
    requires present || tail == ""
    ensures Partition(a + Optional(c, tail, present), c) == (a, tail)
  {
    if present {
      assert a + Optional(c, tail, present) == a + [c] + tail;
      PartitionAt(a, c, tail);
    } else {
      assert a + Optional(c, tail, present) == a;
    }
  }

  /**
   * A link assembled from separated pieces with a port `int()` accepts parses to the
   * document and summary for those pieces.
   */
  lemma ParseAssembled(p: LinkParts, withQuery: bool, withComment: bool, port: int)
    requires Separated(p)
    requires withQuery || p.query == ""
    requires withComment || p.comment == ""
    requires ParseInt(p.portText) == Some(port)
    ensures var ep := EndpointOf(p, port);
      ParseVlessUrl(SCHEME + Assemble(p, withQuery, withComment))
        == Success(Parsed(NameOf(p.comment), Synthesise(ep), Summarise(ep)))
  {
    var url := SCHEME + Assemble(p, withQuery, withComment);
    assert url[|SCHEME|..] == Assemble(p, withQuery, withComment);
    PiecesAssemble(p, withQuery, withComment);
  }

  /**
   * Writing a link from a uuid, a host, a port number, a query and a display name
   * (percent-encoded), then parsing it, gives back the name, host, port and uuid.
   */
  lemma LinkRoundTrip(uuid: string, host: string, port: nat, query: string, name: string)
    requires '#' !in uuid && '@' !in uuid
    requires '#' !in host && '?' !in host && ':' !in host
    requires '#' !in query
    requires |DecimalString(port)| <= MAX_STR_DIGITS
    ensures var p := LinkParts(uuid, host, DecimalString(port), query, Quote(name));
      var r := ParseVlessUrl(SCHEME + Assemble(p, true, true));
      && r.Success?
      && r.value.name == (if name == "" then UNNAMED else name)
      && r.value.info.server == host && r.value.info.port == port
      && RemoteServer(r.value.config) == Some(Server(Some(host), Some(port), [User(uuid, "none", EndpointOf(p, port).flow)]))
  {
    var p := LinkParts(uuid, host, DecimalString(port), query, Quote(name));
    assert '#' !in p.portText && '?' !in p.portText by {
      assert AllDigits(p.portText);
    }
    ParseDecimal(port);
    ParseAssembled(p, true, true, port);
    UnquoteQuote(name);
    if Quote(name) == "" {
      assert Unquote("") == "";
    }
  }

  /** A link that does not start with `vless://` is refused as not a VLESS link. */
  lemma RejectsOtherSchemes(url: string)
    requires !(SCHEME <= url)
    ensures ParseVlessUrl(url) == Failure(NotVless)
  {
  }

  /**
   * A link without `@` after the scheme has an empty server part (the whole text is taken
   * as the uuid), so it is refused for a missing port.
   */
  lemma MissingAtMeansMissingPort(url: string)
    requires SCHEME <= url && '@' !in url[|SCHEME|..]
    ensures ParseVlessUrl(url) == Failure(MissingPort)
  {
    var full := url[|SCHEME|..];
    PartitionInfix(full, '#');
  }

  /**
   * A link whose host-and-port part has no `:` is refused for a missing port, even when a
   * `:` occurs later in the query or the comment.
   */
  lemma MissingColonMeansMissingPort(url: string)
    requires SCHEME <= url && ':' !in HostPort(url[|SCHEME|..])
    ensures ParseVlessUrl(url) == Failure(MissingPort)
  {
  }

  /**
   * A `:` in the query is no port separator: `vless://uuid@host?query` with no `:` in the
   * host is refused for a missing port, whatever the query holds.
   */
  lemma ColonInQueryIsNoPort(uuid: string, host: string, query: string)
    requires '#' !in uuid && '@' !in uuid
    requires '#' !in host && '?' !in host && ':' !in host
    requires '#' !in query
    ensures ParseVlessUrl(SCHEME + uuid + "@" + host + "?" + query) == Failure(MissingPort)
  {
    var url := SCHEME + uuid + "@" + host + "?" + query;
    var full := uuid + ['@'] + (host + ['?'] + query);
    assert url[|SCHEME|..] == full;
    assert '#' !in full;
    PartitionAt(uuid, '@', host + ['?'] + query);
    PartitionAt(host, '?', query);
    MissingColonMeansMissingPort(url);
  }

  /** A port text `int()` refuses is reported with that text. */
  lemma BadPortReported(p: LinkParts, withQuery: bool, withComment: bool)
    requires Separated(p)
    requires withQuery || p.query == ""
    requires withComment || p.comment == ""
    requires ParseInt(p.portText) == None
    ensures ParseVlessUrl(SCHEME + Assemble(p, withQuery, withComment)) == Failure(BadPort(p.portText))
  {
    var url := SCHEME + Assemble(p, withQuery, withComment);
    assert url[|SCHEME|..] == Assemble(p, withQuery, withComment);
    PiecesAssemble(p, withQuery, withComment);
  }

  /**
   * The parser checks no port range: any number `int()` accepts, 70000 for one, becomes
   * the port of the document and the summary.
   */
  lemma PortNotRangeChecked(uuid: string, host: string, n: nat)
    requires '#' !in uuid && '@' !in uuid
    requires '#' !in host && '?' !in host && ':' !in host
    requires |DecimalString(n)| <= MAX_STR_DIGITS
    ensures var r := ParseVlessUrl(SCHEME + Assemble(LinkParts(uuid, host, DecimalString(n), "", ""), false, false));
      r.Success? && r.value.info.port == n
  {
    assert AllDigits(DecimalString(n));
    ParseDecimal(n);
    PortIsInt(LinkParts(uuid, host, DecimalString(n), "", ""), false, false);
  }

  /**
   * Whether a link is accepted depends on its port text only through `int()`: with the
   * other pieces fixed, it parses exactly when `int()` accepts the port text, and the port
   * is that integer, negative ones included (`PyInt.ParseNegative`).
   */
  lemma PortIsInt(p: LinkParts, withQuery: bool, withComment: bool)
    requires Separated(p)
    requires withQuery || p.query == ""
    requires withComment || p.comment == ""
    ensures var r := ParseVlessUrl(SCHEME + Assemble(p, withQuery, withComment));
      && (r.Success? <==> ParseInt(p.portText).Some?)
      && (r.Success? ==> r.value.info.port == ParseInt(p.portText).value)
  {
    var url := SCHEME + Assemble(p, withQuery, withComment);
    assert url[|SCHEME|..] == Assemble(p, withQuery, withComment);
    PiecesAssemble(p, withQuery, withComment);
  }
}
