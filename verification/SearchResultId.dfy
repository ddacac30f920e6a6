/** Search-result ids: "m:" and a magnet, or "p:" and a download path and query. */
module SearchResultId {
  import opened Bytes
  import opened Wrappers
  import opened Strings
  import Base64Url

  const MagnetPrefix: Text := [109, 58]                          // m:
  const ProxyPrefix: Text := [112, 58]                           // p:
  const MagnetScheme: Text := [109, 97, 103, 110, 101, 116, 58]  // magnet:
  const ApiKey: Text := [97, 112, 105, 107, 101, 121]            // apikey
  const DownloadSuffix: Text := [47, 100, 111, 119, 110, 108, 111, 97, 100]  // /download
  const XtBtih: Text := [63, 120, 116, 61, 117, 114, 110, 58, 98, 116, 105, 104, 58]  // ?xt=urn:btih:
  const Dn: Text := [38, 100, 110, 61]                           // &dn=
  const Slash: byte := 47
  const Question: byte := 63
  const Ampersand: byte := 38
  const Equals: byte := 61

  function Ascii(s: string): (t: Text)
    requires forall i :: 0 <= i < |s| ==> s[i] as int < 128
  {
    seq(|s|, i requires 0 <= i < |s| => s[i] as int)
  }

  type Query = seq<(Text, Text)>  // in the order url.Values.Encode prints

  datatype Url = Url(path: Text, query: Query)

  /** net/url, and lower-casing of a hex hash. */
  datatype Env = Env(parseUrl: Text -> Option<Url>, escape: Text -> Text, toLower: Text -> Text)

  datatype Release = Release(title: Text, magnetUrl: Text, downloadUrl: Text, infoHash: Text)

  datatype Source = Magnet(uri: Text) | Download(pathAndQuery: Text)

  function TrimRightSlashes(s: Text): Text {
    if s != [] && s[|s| - 1] == Slash then TrimRightSlashes(s[..|s| - 1]) else s
  }

  function StripBase(path: Text, basePath: Text): Text {
    var base := TrimRightSlashes(basePath);
    if base != [] && HasPrefix(path, base) then path[|base|..] else path
  }

  function WithoutKey(query: Query, key: Text): (r: Query)
    ensures forall i :: 0 <= i < |r| ==> r[i].0 != key && r[i] in query
    ensures forall p :: p in query && p.0 != key ==> p in r
  {
    if query == [] then []
    else if query[0].0 == key then WithoutKey(query[1..], key)
    else [query[0]] + WithoutKey(query[1..], key)
  }

  function EncodePair(env: Env, p: (Text, Text)): Text {
    env.escape(p.0) + [Equals] + env.escape(p.1)
  }

  /** url.Values.Encode */
  function EncodeQuery(env: Env, query: Query): Text {
    if query == [] then []
    else if |query| == 1 then EncodePair(env, query[0])
    else EncodePair(env, query[0]) + [Ampersand] + EncodeQuery(env, query[1..])
  }

  function PathAndQuery(env: Env, url: Url, basePath: Text): Text {
    var query := WithoutKey(url.query, ApiKey);
    var path := StripBase(url.path, basePath);
    if query == [] then path else path + [Question] + EncodeQuery(env, query)
  }

  function MagnetUriOfInfoHash(env: Env, infoHash: Text, title: Text): Text {
    MagnetScheme + XtBtih + env.toLower(infoHash) + Dn + env.escape(title)
  }

  /** proxyTorrentSearchResultId */
  function ProxyId(env: Env, rawUrl: Text, basePath: Text): Option<Text> {
    match env.parseUrl(rawUrl)
    case None => None
    case Some(url) => Some(Base64Url.Encode(ProxyPrefix + PathAndQuery(env, url, basePath)))
  }

  /** torrentSearchResultIdOf */
  function IdOf(env: Env, r: Release, basePath: Text): Option<Text> {
    if HasPrefix(r.magnetUrl, MagnetScheme) then Some(Base64Url.Encode(MagnetPrefix + r.magnetUrl))
    else if r.downloadUrl != [] then ProxyId(env, r.downloadUrl, basePath)
    else if r.magnetUrl != [] then ProxyId(env, r.magnetUrl, basePath)
    else if r.infoHash != [] then Some(Base64Url.Encode(MagnetPrefix + MagnetUriOfInfoHash(env, r.infoHash, r.title)))
    else None
  }

  /** The regular expression ^/\d+/download$ */
  predicate IsDownloadPath(path: Text) {
    && |path| > 1 + |DownloadSuffix|
    && path[0] == Slash
    && path[|path| - |DownloadSuffix|..] == DownloadSuffix
    && forall i :: 1 <= i < |path| - |DownloadSuffix| ==> IsDecimal(path[i])
  }

  function BeforeQuery(pathAndQuery: Text): Text {
    match Cut(pathAndQuery, Question)
    case Some((path, _)) => path
    case None => pathAndQuery
  }

  /** parseTorrentSearchResultId; None is ErrInvalidTorrentSearchResultId */
  function Parse(id: Text): Option<Source> {
    match Base64Url.Decode(id)
    case None => None
    case Some(payload) =>
      match CutPrefix(payload, MagnetPrefix)
      case Some(uri) => if HasPrefix(uri, MagnetScheme) then Some(Magnet(uri)) else None
      case None =>
        match CutPrefix(payload, ProxyPrefix)
        case Some(pathAndQuery) =>
          if IsDownloadPath(BeforeQuery(pathAndQuery)) then Some(Download(pathAndQuery)) else None
        case None => None
  }

  lemma ParseMagnetId(uri: Text)
    ensures Parse(Base64Url.Encode(MagnetPrefix + uri))
      == if HasPrefix(uri, MagnetScheme) then Some(Magnet(uri)) else None
  {
    Base64Url.DecodeEncode(MagnetPrefix + uri);
    assert (MagnetPrefix + uri)[|MagnetPrefix|..] == uri;
  }

  lemma ParseProxyId(pathAndQuery: Text)
    ensures Parse(Base64Url.Encode(ProxyPrefix + pathAndQuery))
      == if IsDownloadPath(BeforeQuery(pathAndQuery)) then Some(Download(pathAndQuery)) else None
  {
    var payload := ProxyPrefix + pathAndQuery;
    Base64Url.DecodeEncode(payload);
    assert payload[|ProxyPrefix|..] == pathAndQuery;
    assert payload[0] == 112 && payload[..2][0] == payload[0];
  }

  /** No id is made exactly when the release has nothing to point at, or the
      link that would be used does not parse. */
  lemma IdNoneIff(env: Env, r: Release, basePath: Text)
    ensures IdOf(env, r, basePath).None? <==>
              && !HasPrefix(r.magnetUrl, Ascii("magnet:"))
              && (if r.downloadUrl != [] then env.parseUrl(r.downloadUrl).None?
                  else if r.magnetUrl != [] then env.parseUrl(r.magnetUrl).None?
                  else r.infoHash == [])
  {
    assert Ascii("magnet:") == MagnetScheme;
  }

  /** A pair of a query, as it is printed. */
  function Pair(key: Text, value: Text): Text {
    key + [Equals] + value
  }

  lemma TwoPairs(key1: Text, value1: Text, key2: Text, value2: Text)
    requires Ampersand !in Pair(key1, value1) && Ampersand !in Pair(key2, value2)
    requires Equals !in key1 && Equals !in key2
    ensures SplitQuery(Pair(key1, value1) + [Ampersand] + Pair(key2, value2))
         == [Some((key1, value1)), Some((key2, value2))]
  {
    CutAt(Pair(key1, value1), Ampersand, Pair(key2, value2));
    CutAt(key1, Equals, value1);
    CutAt(key2, Equals, value2);
    assert SplitQuery(Pair(key2, value2)) == [Some((key2, value2))];
  }

  lemma MagnetPrinted(env: Env, infoHash: Text, title: Text)
    ensures MagnetUriOfInfoHash(env, infoHash, title)
         == Ascii("magnet:") + [Question] + (Pair(Ascii("xt"), Ascii("urn:btih:") + env.toLower(infoHash))
                                             + [Ampersand] + Pair(Ascii("dn"), env.escape(title)))
  {
    PartsPrinted();
    var hash, name := env.toLower(infoHash), env.escape(title);
    assert MagnetScheme + ([Question] + Ascii("xt") + [Equals] + Ascii("urn:btih:")) + hash
              + ([Ampersand] + Ascii("dn") + [Equals]) + name
        == MagnetScheme + [Question] + (Pair(Ascii("xt"), Ascii("urn:btih:") + hash)
                                        + [Ampersand] + Pair(Ascii("dn"), name));
  }

  lemma PartsPrinted()
    ensures MagnetScheme == Ascii("magnet:") && Dn == [Ampersand] + Ascii("dn") + [Equals]
    ensures XtBtih == [Question] + Ascii("xt") + [Equals] + Ascii("urn:btih:")
  {
  }

  lemma UriReadsBack(scheme: Text, key1: Text, value1: Text, key2: Text, value2: Text)
    requires Question !in scheme && Equals !in key1 && Equals !in key2
    requires Ampersand !in Pair(key1, value1) && Ampersand !in Pair(key2, value2)
    ensures var uri := scheme + [Question] + (Pair(key1, value1) + [Ampersand] + Pair(key2, value2));
            && Cut(uri, Question).Some? && Cut(uri, Question).value.0 == scheme
            && SplitQuery(Cut(uri, Question).value.1) == [Some((key1, value1)), Some((key2, value2))]
  {
    CutAt(scheme, Question, Pair(key1, value1) + [Ampersand] + Pair(key2, value2));
    TwoPairs(key1, value1, key2, value2);
  }

  /** The uri's scheme and its pairs are these. */
  predicate ReadsAs(uri: Text, scheme: Text, key1: Text, value1: Text, key2: Text, value2: Text) {
    var read := Cut(uri, '?' as int);
    && read.Some? && read.value.0 == scheme
    && SplitQuery(read.value.1) == [Some((key1, value1)), Some((key2, value2))]
  }

  /** The magnet made of an info hash, read back: its topic is the lower-cased
      hash, its display name the escaped title. */
  lemma MagnetReadsBack(env: Env, infoHash: Text, title: Text)
    requires Ampersand !in env.escape(title) && Ampersand !in env.toLower(infoHash)
    ensures ReadsAs(MagnetUriOfInfoHash(env, infoHash, title), Ascii("magnet:"),
                    Ascii("xt"), Ascii("urn:btih:") + env.toLower(infoHash), Ascii("dn"), env.escape(title))
  {
    MagnetPrinted(env, infoHash, title);
    NoSeparators(env.toLower(infoHash), env.escape(title));
    UriReadsBack(Ascii("magnet:"), Ascii("xt"), Ascii("urn:btih:") + env.toLower(infoHash), Ascii("dn"),
                 env.escape(title));
  }

  lemma NoSeparators(hash: Text, name: Text)
    requires Ampersand !in hash && Ampersand !in name
    ensures Question !in Ascii("magnet:") && Equals !in Ascii("xt") && Equals !in Ascii("dn")
    ensures Ampersand !in Pair(Ascii("xt"), Ascii("urn:btih:") + hash) && Ampersand !in Pair(Ascii("dn"), name)
  {
  }

  function Slashes(n: nat): Text {
    seq(n, _ => Slash)
  }

  lemma {:induction false} TrimmedSlashes(base: Text, n: nat)
    requires base == [] || base[|base| - 1] != Slash
    ensures TrimRightSlashes(base + Slashes(n)) == base
    decreases n
  {
    var s := base + Slashes(n);
    if n == 0 {
      assert s == base;
    } else {
      assert s[..|s| - 1] == base + Slashes(n - 1);
      TrimmedSlashes(base, n - 1);
    }
  }

  /** The base path goes from the front of a path, whatever slashes end the
      setting; a path not below it stays. */
  lemma BaseStripped(base: Text, n: nat, path: Text)
    requires base == [] || base[|base| - 1] != Slash
    ensures StripBase(base + path, base + Slashes(n)) == path
    ensures !HasPrefix(path, base) ==> StripBase(path, base + Slashes(n)) == path
  {
    TrimmedSlashes(base, n);
    assert base + path == if base == [] then path else base + path;
  }

  /** A download path is '/', decimal digits, "/download". */
  lemma DownloadPathIff(path: Text)
    ensures IsDownloadPath(path) <==>
              exists digits :: path == Ascii("/") + digits + Ascii("/download") && Number(digits)
  {
    assert DownloadSuffix == Ascii("/download");
    if IsDownloadPath(path) {
      var digits := path[1..|path| - 9];
      assert path == Ascii("/") + digits + Ascii("/download");
      assert Number(digits);
    }
  }

  predicate Number(digits: Text) {
    digits != [] && forall i :: 0 <= i < |digits| ==> '0' as int <= digits[i] <= '9' as int
  }

  /** Main result, over every release: a magnet comes back as it was, a bare
      info hash as the magnet built from it, and a link as its path and query
      without the api key, exactly when the path before any '?' is a download
      path; anything else is refused. */
  lemma IdRoundTrip(env: Env, r: Release, basePath: Text)
    requires IdOf(env, r, basePath).Some?
    ensures var source := Parse(IdOf(env, r, basePath).value);
      if HasPrefix(r.magnetUrl, MagnetScheme) then source == Some(Magnet(r.magnetUrl))
      else if r.downloadUrl == [] && r.magnetUrl == [] then
        source == Some(Magnet(MagnetUriOfInfoHash(env, r.infoHash, r.title)))
      else
        var url := env.parseUrl(if r.downloadUrl != [] then r.downloadUrl else r.magnetUrl).value;
        var pathAndQuery := PathAndQuery(env, url, basePath);
        source == if IsDownloadPath(BeforeQuery(pathAndQuery)) then Some(Download(pathAndQuery)) else None
  {
    if HasPrefix(r.magnetUrl, MagnetScheme) {
      ParseMagnetId(r.magnetUrl);
    } else if r.downloadUrl == [] && r.magnetUrl == [] {
      var uri := MagnetUriOfInfoHash(env, r.infoHash, r.title);
      assert uri[..|MagnetScheme|] == MagnetScheme;
      ParseMagnetId(uri);
    } else {
      var url := env.parseUrl(if r.downloadUrl != [] then r.downloadUrl else r.magnetUrl).value;
      ParseProxyId(PathAndQuery(env, url, basePath));
    }
  }

  /** The printed query never changes the path that is checked. */
  lemma QueryKeepsPath(env: Env, url: Url, basePath: Text)
    ensures BeforeQuery(PathAndQuery(env, url, basePath)) == BeforeQuery(StripBase(url.path, basePath))
  {
    var path := StripBase(url.path, basePath);
    var query := WithoutKey(url.query, ApiKey);
    if query != [] {
      var printed := EncodeQuery(env, query);
      if Question in path {
        CutEarly(path, Question, [Question] + printed);
        assert path + [Question] + printed == path + ([Question] + printed);
      } else {
        CutAt(path, Question, printed);
      }
    }
  }

  lemma DownloadPathHasNoQuery(path: Text)
    requires IsDownloadPath(path)
    ensures BeforeQuery(path) == path
  {
    assert forall k :: 0 <= k < |DownloadSuffix| ==> DownloadSuffix[k] != Question;
    forall i | 0 <= i < |path| ensures path[i] != Question {
      if i >= |path| - |DownloadSuffix| {
        assert path[i] == path[|path| - |DownloadSuffix|..][i - (|path| - |DownloadSuffix|)];
      }
    }
  }

  /** Every link to a /<digits>/download path below the base is accepted, with
      any query, and comes back as its path and query without the api key. */
  lemma DownloadLinkAccepted(env: Env, rawUrl: Text, basePath: Text, url: Url)
    requires env.parseUrl(rawUrl) == Some(url) && IsDownloadPath(StripBase(url.path, basePath))
    ensures ProxyId(env, rawUrl, basePath).Some?
    ensures Parse(ProxyId(env, rawUrl, basePath).value) == Some(Download(PathAndQuery(env, url, basePath)))
  {
    QueryKeepsPath(env, url, basePath);
    DownloadPathHasNoQuery(StripBase(url.path, basePath));
    ParseProxyId(PathAndQuery(env, url, basePath));
  }

  // ---- The query that is printed ------------------------------------------------------

  /** Reading an encoded query back: pairs between '&', split at '='. */
  function SplitQuery(s: Text): seq<Option<(Text, Text)>>
    decreases |s|
  {
    match Cut(s, Ampersand)
    case None => [Cut(s, Equals)]
    case Some((first, rest)) => [Cut(first, Equals)] + SplitQuery(rest)
  }

  ghost predicate EscapeLawful(env: Env) {
    && (forall s :: Ampersand !in env.escape(s) && Equals !in env.escape(s))
    && (forall s, s' :: env.escape(s) == env.escape(s') ==> s == s')
  }

  function Escaped(env: Env, query: Query): seq<Option<(Text, Text)>> {
    if query == [] then [] else [Some((env.escape(query[0].0), env.escape(query[0].1)))] + Escaped(env, query[1..])
  }

  lemma {:induction false} SplitEncoded(env: Env, query: Query)
    requires EscapeLawful(env) && query != []
    ensures SplitQuery(EncodeQuery(env, query)) == Escaped(env, query)
    decreases |query|
  {
    var pair := EncodePair(env, query[0]);
    CutAt(env.escape(query[0].0), Equals, env.escape(query[0].1));
    assert Ampersand !in pair;
    if |query| == 1 {
      assert Escaped(env, query) == [Some((env.escape(query[0].0), env.escape(query[0].1)))] + Escaped(env, query[1..]);
      assert query[1..] == [];
    } else {
      CutAt(pair, Ampersand, EncodeQuery(env, query[1..]));
      SplitEncoded(env, query[1..]);
    }
  }

  lemma {:induction false} EscapedAt(env: Env, query: Query, i: nat)
    requires i < |query|
    ensures |Escaped(env, query)| == |query|
    ensures Escaped(env, query)[i] == Some((env.escape(query[i].0), env.escape(query[i].1)))
  {
    if i > 0 {
      EscapedAt(env, query[1..], i - 1);
    } else if |query| > 1 {
      EscapedAt(env, query[1..], 0);
    }
  }

  /** The printed query reads back as the link's own pairs in order, and no
      pair of it is the api key. */
  lemma QueryHasNoApiKey(env: Env, url: Url, i: nat)
    requires EscapeLawful(env) && WithoutKey(url.query, ApiKey) != []
    requires i < |SplitQuery(EncodeQuery(env, WithoutKey(url.query, ApiKey)))|
    ensures var kept := WithoutKey(url.query, ApiKey);
            var pairs := SplitQuery(EncodeQuery(env, kept));
            && |pairs| == |kept| && pairs[i] == Some((env.escape(kept[i].0), env.escape(kept[i].1)))
            && pairs[i].value.0 != env.escape(ApiKey)
  {
    var kept := WithoutKey(url.query, ApiKey);
    SplitEncoded(env, kept);
    EscapedAt(env, kept, 0);
    EscapedAt(env, kept, i);
  }

  /** What is left of a query keeps its order. */
  lemma {:induction false} WithoutKeySplits(a: Query, b: Query, key: Text)
    ensures WithoutKey(a + b, key) == WithoutKey(a, key) + WithoutKey(b, key)
    decreases |a|
  {
    if a == [] {
      assert a + b == b;
    } else {
      assert (a + b)[1..] == a[1..] + b;
      WithoutKeySplits(a[1..], b, key);
    }
  }

  /** What is sent on is the path below the base and, if any pair but the key
      is left, those pairs in order behind a '?'. */
  lemma PathAndQueryReads(env: Env, url: Url, basePath: Text)
    requires EscapeLawful(env) && Question !in StripBase(url.path, basePath)
    ensures var sent, path, kept := PathAndQuery(env, url, basePath), StripBase(url.path, basePath),
                                    WithoutKey(url.query, ApiKey);
            if kept == [] then sent == path
            else && Cut(sent, '?' as int).Some? && Cut(sent, '?' as int).value.0 == path
                 && SplitQuery(Cut(sent, '?' as int).value.1) == Escaped(env, kept)
  {
    var path, kept := StripBase(url.path, basePath), WithoutKey(url.query, ApiKey);
    if kept != [] {
      CutAt(path, Question, EncodeQuery(env, kept));
      SplitEncoded(env, kept);
    }
  }
}
