/**
 * The `PJFP` class: a parser for one album with its configuration, the
 * records it has parsed so far, the album id and the access key.
 */
module PicasaFeed {
  import opened Wrappers
  import opened Php
  import PjfpConfig
  import opened Transform
  import opened Requests
  import opened Shapes

  type Config = map<string, Value>

  /** What `json_decode` made of the response body. */
  datatype Document =
    | Falsy                            // invalid JSON, or a value PHP treats as false
    | Feed(entries: Option<seq<Entry>>) // None when `feed` or `feed.entry` is absent

  /** What a transport gave back for a request. */
  datatype Response = TransportFailure | Decoded(document: Document)

  /** The exceptions `json()` throws. */
  datatype Error = TransportError | DecodeError

  /** `array_merge($pjfp_conf, $conf)` when `$conf` is an array, the defaults otherwise. */
  function Merged(defaults: Config, conf: Option<Config>): (c: Config)
    ensures c.Keys == defaults.Keys + (if conf.Some? then conf.value.Keys else {})
    ensures forall k :: k in c ==> c[k] == if conf.Some? && k in conf.value then conf.value[k] else defaults[k]
  {
    if conf.Some? then defaults + conf.value else defaults
  }

  /** `$config[$key]`: an unset key reads as null. */
  function Lookup(config: Config, key: string): (v: Value)
    ensures key in config ==> v == config[key]
    ensures key !in config ==> v == Null
    ensures v != Null ==> key in config
  {
    if key in config then config[key] else Null
  }

  /** The height bound `image_resize` reads is an integer, not negative. */
  predicate HeightBounded(config: Config) {
    Lookup(config, "max_height").Int? && Lookup(config, "max_height").i >= 0
  }

  /** The bounds the fetch uses are integers, the height bound not negative. */
  predicate BoundsTyped(config: Config) {
    Lookup(config, "max_width").Int? && HeightBounded(config)
  }

  function MaxHeight(config: Config): nat
    requires HeightBounded(config)
  {
    Lookup(config, "max_height").i
  }

  function UseHttps(config: Config): bool {
    Truthy(Lookup(config, "use_HTTPS"))
  }

  /** The request `json()` sends: through cURL when `use_curl` is truthy, else through a socket. */
  function RequestFor(config: Config, albumId: Value, authKey: string): (r: Request)
    requires Lookup(config, "max_width").Int?
    ensures r.CurlGet? <==> Truthy(Lookup(config, "use_curl"))
    ensures PathOf(r) == RequestPath(Lookup(config, "user"), albumId, Lookup(config, "max_width").i, authKey)
  {
    var path := RequestPath(Lookup(config, "user"), albumId, Lookup(config, "max_width").i, authKey);
    if Truthy(Lookup(config, "use_curl")) then CurlRequest(path) else SocketRequest(path)
  }

  /** What one run of `json()` yields: the records to append, or the exception it throws. */
  function Fetched(config: Config, albumId: Value, authKey: string, fetch: Request -> Response)
    : (r: Result<seq<Record>, Error>)
    requires BoundsTyped(config)
    ensures var resp := fetch(RequestFor(config, albumId, authKey));
      && (r == Failure(TransportError) <==> resp == TransportFailure)
      && (r == Failure(DecodeError) <==> resp == Decoded(Falsy))
      && (resp == Decoded(Feed(None)) ==> r == Success([]))
      && (r.Success? ==>
            resp.Decoded? && resp.document.Feed? && |r.value| == |resp.document.entries.GetOr([])|)
  {
    match fetch(RequestFor(config, albumId, authKey))
    case TransportFailure => Failure(TransportError)
    case Decoded(Falsy) => Failure(DecodeError)
    case Decoded(Feed(entries)) => Success(Records(entries.GetOr([]), UseHttps(config), MaxHeight(config)))
  }

  /** True when one run of `json()` under `config` appends at least one record. */
  predicate StoresRecords(config: Config, albumId: Value, authKey: string, fetch: Request -> Response)
    requires BoundsTyped(config)
  {
    var f := Fetched(config, albumId, authKey, fetch);
    f.Success? && f.value != []
  }

  class Pjfp {
    var config: Config
    var data: seq<Record>
    const albumId: Value
    const authKey: string
    /** How many times `json()` has asked a transport for the feed. */
    ghost var fetches: nat

    /**
     * Every default key stays set: `set_conf` adds or overwrites keys and
     * never removes one. Reads of the configuration go through `Lookup`,
     * which gives null for an unset key, so no other contract depends on it.
     */
    ghost predicate Valid()
      reads this
    {
      PjfpConfig.Defaults.Keys <= config.Keys
    }

    /** `__construct($albumId, $authKey, $conf)`. */
    constructor (albumId: Value, authKey: string, conf: Option<Config>)
      ensures Valid()
      ensures config == Merged(PjfpConfig.Defaults, conf)
      ensures data == [] && fetches == 0
      ensures this.albumId == albumId && this.authKey == authKey
    {
      this.albumId := albumId;
      this.authKey := authKey;
      config := map[];
      data := [];
      fetches := 0;
      new;
      BuildConf(conf);
      assert map[] + Merged(PjfpConfig.Defaults, conf) == Merged(PjfpConfig.Defaults, conf);
    }

    /** `set_conf($key, $value)`: only that key changes. */
    method SetConf(key: string, value: Value)
      modifies this`config
      ensures old(Valid()) ==> Valid()
      ensures config == old(config)[key := value]
      ensures GetConfig(key) == Some(value)
      ensures forall k :: k != key ==> GetConfig(k) == old(GetConfig(k))
    {
      config := config[key := value];
    }

    /** `build_conf($conf)`: merge the overrides over the defaults and store each setting. */
    method BuildConf(conf: Option<Config>)
      modifies this`config
      ensures config == old(config) + Merged(PjfpConfig.Defaults, conf)
    {
      var merged := Merged(PjfpConfig.Defaults, conf);
      var pending := merged.Keys;
      while pending != {}
        invariant pending <= merged.Keys
        invariant config.Keys == old(config).Keys + (merged.Keys - pending)
        invariant forall k :: k in config ==>
          config[k] == if k in merged && k !in pending then merged[k] else old(config)[k]
        decreases pending
      {
        var key :| key in pending;
        SetConf(key, merged[key]);
        pending := pending - {key};
      }
    }

    /** `get_config($index)`: the setting, or None (PHP null) for a key never set. */
    function GetConfig(key: string): (r: Option<Value>)
      reads this
      ensures r.Some? <==> key in config
      ensures r.Some? ==> r.value == config[key]
    {
      if key in config then Some(config[key]) else None
    }

    /** `image_resize(&$width, &$height)` against the configured `max_height`. */
    method ImageResize(width: nat, height: nat) returns (newWidth: nat, newHeight: nat)
      requires HeightBounded(config)
      ensures (newWidth, newHeight) == Resized(width, height, MaxHeight(config))
      ensures height > MaxHeight(config) ==> newHeight == MaxHeight(config)
      ensures height <= MaxHeight(config) ==> newWidth == width && newHeight == height
    {
      newWidth, newHeight := width, height;
      var maxHeight := MaxHeight(config);
      if newHeight > maxHeight {
        if newHeight == newWidth {
          newWidth := maxHeight;
          newHeight := maxHeight;
        } else {
          newWidth := RoundedScale(newWidth, newHeight, maxHeight);
          newHeight := maxHeight;
        }
      }
    }

    /**
     * `json()`: fetch the feed, then append one record per entry. A
     * missing entry list appends nothing.
     */
    method Json(fetch: Request -> Response) returns (outcome: Outcome<Error>)
      requires BoundsTyped(config)
      modifies this`data, this`fetches
      ensures fetches == old(fetches) + 1
      ensures match Fetched(config, albumId, authKey, fetch)
        case Success(records) => outcome == Pass && data == old(data) + records
        case Failure(e) => outcome == Fail(e) && data == old(data)
    {
      var request := RequestFor(config, albumId, authKey);  // curl() or socket()
      fetches := fetches + 1;
      match fetch(request)
      case TransportFailure =>
        assert Fetched(config, albumId, authKey, fetch) == Failure(TransportError);
        return Fail(TransportError);
      case Decoded(Falsy) =>
        assert Fetched(config, albumId, authKey, fetch) == Failure(DecodeError);
        return Fail(DecodeError);
      case Decoded(Feed(found)) =>
        var entries := found.GetOr([]);
        AppendRecords(entries);
        assert Fetched(config, albumId, authKey, fetch)
          == Success(Records(entries, UseHttps(config), MaxHeight(config)));
        return Pass;
    }

    /**
     * The `foreach` of `json()`: each entry, its URL rewritten when
     * `use_HTTPS` is truthy and its size passed through `image_resize`,
     * is appended as one record, in feed order.
     */
    method AppendRecords(entries: seq<Entry>)
      requires HeightBounded(config)
      modifies this`data
      ensures data == old(data) + Records(entries, UseHttps(config), MaxHeight(config))
    {
      var useHttps := UseHttps(config);
      var maxHeight := MaxHeight(config);
      var i := 0;
      while i < |entries|
        invariant 0 <= i <= |entries|
        invariant data == old(data) + Records(entries[..i], useHttps, maxHeight)
      {
        var entry := entries[i];
        var url := entry.url;
        if useHttps {
          url := Upgrade(url);
        }
        var width, height := ImageResize(entry.width, entry.height);
        data := data + [Record(url, width, height, entry.caption)];
        RecordsExtend(entries, i, useHttps, maxHeight);
        i := i + 1;
      }
      assert entries[..i] == entries;
    }

    /**
     * `get_data($type)`: run `json()` if nothing is stored yet, then hand
     * out the stored records in the shape the selector names.
     */
    method GetData(selector: Option<string>, fetch: Request -> Response)
      returns (r: Result<seq<Node>, Error>)
      requires data == [] ==> BoundsTyped(config)
      modifies this`data, this`fetches
      ensures old(data) != [] ==>
        && data == old(data) && fetches == old(fetches)
        && r == Success(Shaped(SelectShape(selector), data))
      ensures old(data) == [] ==> fetches == old(fetches) + 1
      ensures old(data) == [] ==> match Fetched(config, albumId, authKey, fetch)
        case Success(records) => data == records && r == Success(Shaped(SelectShape(selector), records))
        case Failure(e) => data == [] && r == Failure(e)
    {
      if data == [] {
        var outcome := Json(fetch);
        if outcome.Fail? {
          return Failure(outcome.error);
        }
      }
      var nodes := Project(data, SelectShape(selector));
      assert nodes == Shaped(SelectShape(selector), data);
      return Success(nodes);
    }
  }

  lemma DefaultRequestPath(albumId: string)
    ensures RequestPath(Str(""), Str(albumId), 550, "")
      == "/data/feed/base/user//albumid/" + albumId + "?alt=json&fields=entry(media:group)&imgmax=550"
  {
    assert IntToDecimal(550) == "550" by {
      assert NatToDecimal(5) == "5";
      assert NatToDecimal(55) == NatToDecimal(5) + "5";
      assert NatToDecimal(550) == NatToDecimal(55) + "0";
    }
    assert AuthSuffix("") == "";
  }

  /** With no overrides the height bound is 367 and URLs are not rewritten. */
  lemma DefaultSettings()
    ensures var c := Merged(PjfpConfig.Defaults, None);
      BoundsTyped(c) && MaxHeight(c) == 367 && !UseHttps(c) && Truthy(Lookup(c, "use_curl"))
  {
    assert Merged(PjfpConfig.Defaults, None) == PjfpConfig.Defaults;
  }

  /** With no overrides a public album is requested through cURL with `imgmax=550`. */
  lemma DefaultBehaviour(albumId: string)
    ensures var c := Merged(PjfpConfig.Defaults, None);
      && BoundsTyped(c)
      && RequestFor(c, Str(albumId), "") == CurlGet("http://picasaweb.google.com"
           + "/data/feed/base/user//albumid/" + albumId + "?alt=json&fields=entry(media:group)&imgmax=550")
  {
    var c := Merged(PjfpConfig.Defaults, None);
    DefaultSettings();
    assert c == PjfpConfig.Defaults;
    assert Lookup(c, "user") == Str("") && Lookup(c, "max_width") == Int(550);
    var path := RequestPath(Str(""), Str(albumId), 550, "");
    assert RequestFor(c, Str(albumId), "") == CurlRequest(path);
    DefaultRequestPath(albumId);
  }

  /**
   * A parser fetches once and keeps what it got: after a non-empty first
   * `get_data`, a `set_conf` and a second `get_data` return the records
   * built from the configuration of the first fetch, whatever the network
   * would answer the second time. After a failed or empty first fetch the
   * second call fetches again, under the changed configuration, from the
   * network as it answers then (`fetch2`).
   */
  method MemoisedAcrossSetConf(albumId: Value, authKey: string, conf: Option<Config>,
                               key: string, value: Value,
                               first: Option<string>, second: Option<string>,
                               fetch: Request -> Response, fetch2: Request -> Response)
    returns (r1: Result<seq<Node>, Error>, r2: Result<seq<Node>, Error>)
    requires BoundsTyped(Merged(PjfpConfig.Defaults, conf))
    requires StoresRecords(Merged(PjfpConfig.Defaults, conf), albumId, authKey, fetch)
      || BoundsTyped(Merged(PjfpConfig.Defaults, conf)[key := value])
    ensures var f := Fetched(Merged(PjfpConfig.Defaults, conf), albumId, authKey, fetch);
      && (f.Failure? ==> r1 == Failure(f.error))
      && (f.Success? ==> r1 == Success(Shaped(SelectShape(first), f.value)))
      && (f.Success? && f.value != [] ==> r2 == Success(Shaped(SelectShape(second), f.value)))
    ensures !StoresRecords(Merged(PjfpConfig.Defaults, conf), albumId, authKey, fetch) ==>
      var g := Fetched(Merged(PjfpConfig.Defaults, conf)[key := value], albumId, authKey, fetch2);
        && (g.Failure? ==> r2 == Failure(g.error))
        && (g.Success? ==> r2 == Success(Shaped(SelectShape(second), g.value)))
  {
    ghost var c := Merged(PjfpConfig.Defaults, conf);
    ghost var f := Fetched(c, albumId, authKey, fetch);
    var parser := new Pjfp(albumId, authKey, conf);
    r1 := parser.GetData(first, fetch);
    assert parser.data == if f.Success? then f.value else [];
    parser.SetConf(key, value);
    assert parser.config == c[key := value];
    // The second call fetches only when the first stored nothing.
    assert parser.data == [] ==> BoundsTyped(parser.config);
    r2 := parser.GetData(second, fetch2);
    // One transport request when the first call stored records, two otherwise.
    assert parser.fetches == if f.Success? && f.value != [] then 1 else 2;
  }
}
