/** The region catalog (src/daerah.rs): building it from the remote
    service's province and regency `<option>`s, its JSON form on disk, and
    the read-through cache in front of it. */
module Daerah {
  import opened Base
  import opened Json
  import opened Store
  import opened Remote
  import opened Config

  /** One regency (kabupaten) of one province, with the tokens the remote
      service uses for both. */
  datatype Daerah = Daerah(provinsi: string, provinsiToken: string, kabupaten: string, kabupatenToken: string)

  const CatalogFileName := "bimas-daerah.json"

  // ------------------------------------------------- building the catalog

  /** `option.value().attr("value").unwrap_or("")`. */
  function ValueOrEmpty(o: HtmlOption): string {
    o.value.GetOr("")
  }

  /** The record `build_daerah` makes of one regency option. */
  function Regency(provinsiName: string, provinsiToken: string, o: HtmlOption): Daerah {
    Daerah(provinsiName, provinsiToken, o.inner, ValueOrEmpty(o))
  }

  /** The records of one province: one record per option, in option order,
      each carrying the province name and token unchanged and the option's
      text and `value` (or the empty string when the option has no
      `value`). */
  function Records(provinsiName: string, provinsiToken: string, options: seq<HtmlOption>): (r: seq<Daerah>)
    ensures |r| == |options|
    ensures forall i :: 0 <= i < |options| ==>
      && r[i].provinsi == provinsiName && r[i].provinsiToken == provinsiToken
      && r[i].kabupaten == options[i].inner
      && r[i].kabupatenToken == (if options[i].value.Some? then options[i].value.value else "")
  {
    if options == [] then []
    else Records(provinsiName, provinsiToken, options[..|options| - 1])
         + [Regency(provinsiName, provinsiToken, options[|options| - 1])]
  }

  /** `build_daerah`: posts the province token, then makes one record per
      `<option>` of the answer; a failed request panics. */
  method BuildDaerah(net: Network, provinsiName: string, provinsiToken: string) returns (r: Outcome<seq<Daerah>>)
    modifies net`log
    ensures net.log == old(net.log) + [PostRegencies(provinsiToken)]
    ensures net.regencies(provinsiToken).None? ==> r == Panic("Failed load kabupaten")
    ensures net.regencies(provinsiToken).Some? ==>
      r == Done(Records(provinsiName, provinsiToken, net.regencies(provinsiToken).value))
  {
    var response := net.FetchRegencies(provinsiToken);
    if response.None? {
      return Panic("Failed load kabupaten");
    }
    var options := response.value;
    var daerahs: seq<Daerah> := [];
    for i := 0 to |options|
      invariant daerahs == Records(provinsiName, provinsiToken, options[..i])
    {
      daerahs := daerahs + [Regency(provinsiName, provinsiToken, options[i])];
      assert options[..i + 1][..i] == options[..i];
    }
    assert options[..|options|] == options;
    r := Done(daerahs);
  }

  /** The catalog `fetch_daerah` assembles from the province options: the
      records of each province appended in province order; `None` when some
      province's request fails. */
  function Catalog(provinces: seq<HtmlOption>, regencies: string -> Option<seq<HtmlOption>>): (r: Option<seq<Daerah>>)
    ensures r.Some? ==> forall k :: 0 <= k < |r.value| ==> FromProvinces(r.value[k], provinces)
  {
    if provinces == [] then Some([])
    else
      var last := provinces[|provinces| - 1];
      match Catalog(provinces[..|provinces| - 1], regencies)
      case None => None
      case Some(ds) =>
        match regencies(ValueOrEmpty(last))
        case None => None
        case Some(options) => Some(ds + Records(last.inner, ValueOrEmpty(last), options))
  }

  /** Whether a record was made for one of the given province options. */
  predicate FromProvinces(d: Daerah, provinces: seq<HtmlOption>) {
    exists j :: 0 <= j < |provinces| && d.provinsi == provinces[j].inner && d.provinsiToken == ValueOrEmpty(provinces[j])
  }

  /** The regency requests `fetch_daerah` sends: one per province, in order,
      up to and including the first that fails. */
  function CatalogRequests(provinces: seq<HtmlOption>, regencies: string -> Option<seq<HtmlOption>>): seq<Request> {
    if provinces == [] then []
    else
      var init := provinces[..|provinces| - 1];
      if Catalog(init, regencies).None? then CatalogRequests(init, regencies)
      else CatalogRequests(init, regencies) + [PostRegencies(ValueOrEmpty(provinces[|provinces| - 1]))]
  }

  /** The number of regencies the service lists for the given provinces. */
  function RegencyCount(provinces: seq<HtmlOption>, regencies: string -> Option<seq<HtmlOption>>): nat {
    if provinces == [] then 0
    else RegencyCount(provinces[..|provinces| - 1], regencies)
         + |regencies(ValueOrEmpty(provinces[|provinces| - 1])).GetOr([])|
  }

  /** The catalog is built exactly when every province's request succeeds,
      and then it holds as many records as the provinces have regencies. */
  lemma {:induction false} CatalogSize(provinces: seq<HtmlOption>, regencies: string -> Option<seq<HtmlOption>>)
    ensures Catalog(provinces, regencies).Some? <==>
      forall i :: 0 <= i < |provinces| ==> regencies(ValueOrEmpty(provinces[i])).Some?
    ensures Catalog(provinces, regencies).Some? ==>
      |Catalog(provinces, regencies).value| == RegencyCount(provinces, regencies)
  {
    if provinces != [] {
      var init := provinces[..|provinces| - 1];
      var last := provinces[|provinces| - 1];
      CatalogSize(init, regencies);
      assert forall i :: 0 <= i < |init| ==> init[i] == provinces[i];
    }
  }

  /** The catalog of consecutive runs of provinces is the concatenation of
      their catalogs: records come in province-option order. */
  lemma {:induction false} CatalogAppend(a: seq<HtmlOption>, b: seq<HtmlOption>, regencies: string -> Option<seq<HtmlOption>>)
    ensures Catalog(a + b, regencies).Some? <==> Catalog(a, regencies).Some? && Catalog(b, regencies).Some?
    ensures Catalog(a + b, regencies).Some? ==>
      Catalog(a + b, regencies).value == Catalog(a, regencies).value + Catalog(b, regencies).value
    decreases |b|
  {
    if b == [] {
      assert a + b == a;
    } else {
      var b' := b[..|b| - 1];
      CatalogAppend(a, b', regencies);
      assert (a + b)[..|a + b| - 1] == a + b';
      assert (a + b)[|a + b| - 1] == b[|b| - 1];
    }
  }

  /** Once a province's request has failed, no further request is sent and
      the catalog is not built. */
  lemma {:induction false} AfterFailure(provinces: seq<HtmlOption>, k: nat, regencies: string -> Option<seq<HtmlOption>>)
    requires k <= |provinces|
    requires Catalog(provinces[..k], regencies).None?
    ensures Catalog(provinces, regencies).None?
    ensures CatalogRequests(provinces, regencies) == CatalogRequests(provinces[..k], regencies)
    decreases |provinces| - k
  {
    if k == |provinces| {
      assert provinces[..k] == provinces;
    } else {
      var init := provinces[..|provinces| - 1];
      assert init[..k] == provinces[..k];
      AfterFailure(init, k, regencies);
    }
  }

  /** One more province: its request is sent when the catalog so far was
      built, and its records are appended when that request succeeds. */
  lemma CatalogStep(provinces: seq<HtmlOption>, i: nat, regencies: string -> Option<seq<HtmlOption>>)
    requires i < |provinces| && Catalog(provinces[..i], regencies).Some?
    ensures CatalogRequests(provinces[..i + 1], regencies)
            == CatalogRequests(provinces[..i], regencies) + [PostRegencies(ValueOrEmpty(provinces[i]))]
    ensures regencies(ValueOrEmpty(provinces[i])).None? ==> Catalog(provinces[..i + 1], regencies).None?
    ensures regencies(ValueOrEmpty(provinces[i])).Some? ==>
      Catalog(provinces[..i + 1], regencies)
      == Some(Catalog(provinces[..i], regencies).value
              + Records(provinces[i].inner, ValueOrEmpty(provinces[i]), regencies(ValueOrEmpty(provinces[i])).value))
  {
    assert provinces[..i + 1][..i] == provinces[..i];
  }

  /** What `fetch_daerah` yields: a panic when the schedule page or a
      province's request fails, and the catalog otherwise. */
  function FetchedCatalog(provinces: Option<seq<HtmlOption>>, regencies: string -> Option<seq<HtmlOption>>): (r: Outcome<seq<Daerah>>)
    ensures !r.Exit?
    ensures r.Done? <==>
      provinces.Some? && forall i :: 0 <= i < |provinces.value| ==> regencies(ValueOrEmpty(provinces.value[i])).Some?
    ensures r.Done? ==> |r.value| == RegencyCount(provinces.value, regencies)
  {
    match provinces
    case None => Panic("Failed load provinsi")
    case Some(provs) =>
      CatalogSize(provs, regencies);
      match Catalog(provs, regencies)
      case None => Panic("Failed load kabupaten")
      case Some(ds) => Done(ds)
  }

  /** The requests `fetch_daerah` sends. */
  function FetchRequests(provinces: Option<seq<HtmlOption>>, regencies: string -> Option<seq<HtmlOption>>): seq<Request> {
    [GetProvincePage] + if provinces.Some? then CatalogRequests(provinces.value, regencies) else []
  }

  /** `fetch_daerah`: loads the province options, then collects their
      records. */
  method FetchDaerah(net: Network) returns (r: Outcome<seq<Daerah>>)
    modifies net`log
    ensures r == FetchedCatalog(net.provinces, net.regencies)
    ensures net.log == old(net.log) + FetchRequests(net.provinces, net.regencies)
  {
    var page := net.GetProvinces();
    if page.None? {
      return Panic("Failed load provinsi");
    }
    r := CollectProvinces(net, page.value);
  }

  /** The loop of `fetch_daerah`: extends the catalog with each province's
      records in turn, stopping at the first failed request. */
  method CollectProvinces(net: Network, provinces: seq<HtmlOption>) returns (r: Outcome<seq<Daerah>>)
    modifies net`log
    ensures Catalog(provinces, net.regencies).None? ==> r == Panic("Failed load kabupaten")
    ensures Catalog(provinces, net.regencies).Some? ==> r == Done(Catalog(provinces, net.regencies).value)
    ensures net.log == old(net.log) + CatalogRequests(provinces, net.regencies)
  {
    ghost var regencies, sent := net.regencies, net.log;
    var vecDaerah: seq<Daerah> := [];
    for i := 0 to |provinces|
      invariant Catalog(provinces[..i], regencies) == Some(vecDaerah)
      invariant net.log == sent + CatalogRequests(provinces[..i], regencies)
    {
      var option := provinces[i];
      var token := ValueOrEmpty(option);
      var daerah := BuildDaerah(net, option.inner, token);
      CatalogStep(provinces, i, regencies);
      if daerah.Aborted() {
        AfterFailure(provinces, i + 1, regencies);
        return daerah;
      }
      vecDaerah := vecDaerah + daerah.value;
    }
    assert provinces[..|provinces|] == provinces;
    r := Done(vecDaerah);
  }

  // ------------------------------------------------------ JSON on disk

  /** The object `serde` writes for a record. */
  function EncodeDaerah(d: Daerah): Value {
    Object([("provinsi", Str(d.provinsi)), ("provinsi_token", Str(d.provinsiToken)),
            ("kabupaten", Str(d.kabupaten)), ("kabupaten_token", Str(d.kabupatenToken))])
  }

  /** The array `serde` writes for a catalog: one element per record, each
      reading back as that record. */
  function EncodeCatalog(ds: seq<Daerah>): (r: Value)
    ensures r.Array? && |r.items| == |ds|
    ensures forall k :: 0 <= k < |ds| ==> DecodeDaerah(r.items[k]) == Some(ds[k])
  {
    assert forall d :: DecodeDaerah(EncodeDaerah(d)) == Some(d) by {
      forall d ensures DecodeDaerah(EncodeDaerah(d)) == Some(d) {
        DecodeEncodeDaerah(d);
      }
    }
    Array(seq(|ds|, i requires 0 <= i < |ds| => EncodeDaerah(ds[i])))
  }

  function KeyCount(entries: seq<(string, Value)>, key: string): nat {
    if entries == [] then 0
    else (if entries[0].0 == key then 1 else 0) + KeyCount(entries[1..], key)
  }

  lemma {:induction false} KeyCountAppend(a: seq<(string, Value)>, b: seq<(string, Value)>, key: string)
    ensures KeyCount(a + b, key) == KeyCount(a, key) + KeyCount(b, key)
  {
    if a == [] {
      assert a + b == b;
    } else {
      KeyCountAppend(a[1..], b, key);
      assert (a + b)[1..] == a[1..] + b;
    }
  }

  /** A struct field as `serde` reads it: present exactly once (a missing or
      duplicate field is an error) and holding a string. */
  function Field(entries: seq<(string, Value)>, key: string): Option<string> {
    if KeyCount(entries, key) != 1 then None
    else match Lookup(entries, key)
      case Some(Str(s)) => Some(s)
      case _ => None
  }

  /** `Daerah` deserialised: from an object with the four string fields (other
      fields ignored), or from an array of exactly four strings. */
  function DecodeDaerah(v: Value): Option<Daerah> {
    match v
    case Object(es) =>
      (match (Field(es, "provinsi"), Field(es, "provinsi_token"), Field(es, "kabupaten"), Field(es, "kabupaten_token"))
       case (Some(p), Some(pt), Some(k), Some(kt)) => Some(Daerah(p, pt, k, kt))
       case _ => None)
    case Array(items) =>
      if |items| == 4 && items[0].Str? && items[1].Str? && items[2].Str? && items[3].Str?
      then Some(Daerah(items[0].s, items[1].s, items[2].s, items[3].s))
      else None
    case _ => None
  }

  function DecodeAll(items: seq<Value>): (r: Option<seq<Daerah>>)
    ensures r.Some? <==> forall k :: 0 <= k < |items| ==> DecodeDaerah(items[k]).Some?
    ensures r.Some? ==> |r.value| == |items| && forall k :: 0 <= k < |items| ==> DecodeDaerah(items[k]) == Some(r.value[k])
  {
    if items == [] then Some([])
    else match (DecodeDaerah(items[0]), DecodeAll(items[1..]))
      case (Some(d), Some(ds)) => Some([d] + ds)
      case _ => None
  }

  /** `Vec<Daerah>` deserialised: an array of records, accepted exactly when
      every element is one, and then read element by element. */
  function DecodeCatalog(v: Value): (r: Option<seq<Daerah>>)
    ensures r.Some? <==> v.Array? && forall k :: 0 <= k < |v.items| ==> DecodeDaerah(v.items[k]).Some?
    ensures r.Some? ==> |r.value| == |v.items| && forall k :: 0 <= k < |v.items| ==> DecodeDaerah(v.items[k]) == Some(r.value[k])
  {
    if v.Array? then DecodeAll(v.items) else None
  }

  lemma DecodeEncodeDaerah(d: Daerah)
    ensures DecodeDaerah(EncodeDaerah(d)) == Some(d)
  {
    var es := EncodeDaerah(d).entries;
    var e0, e1, e2, e3 := es[0], es[1], es[2], es[3];
    assert es == [e0] + [e1] + [e2] + [e3];
    forall key: string ensures KeyCount(es, key) == KeyCount([e0], key) + KeyCount([e1], key) + KeyCount([e2], key) + KeyCount([e3], key) {
      KeyCountAppend([e0] + [e1] + [e2], [e3], key);
      KeyCountAppend([e0] + [e1], [e2], key);
      KeyCountAppend([e0], [e1], key);
    }
    forall e: (string, Value), key: string ensures KeyCount([e], key) == if e.0 == key then 1 else 0 {
      assert [e][1..] == [];
    }
  }

  /** A saved catalog reads back as the same catalog. */
  lemma {:induction false} CatalogRoundTrip(ds: seq<Daerah>)
    ensures DecodeCatalog(EncodeCatalog(ds)) == Some(ds)
  {
    DecodeAllEncoded(ds);
  }

  lemma {:induction false} DecodeAllEncoded(ds: seq<Daerah>)
    ensures DecodeAll(EncodeCatalog(ds).items) == Some(ds)
  {
    if ds != [] {
      DecodeEncodeDaerah(ds[0]);
      DecodeAllEncoded(ds[1..]);
      assert EncodeCatalog(ds).items[1..] == EncodeCatalog(ds[1..]).items;
      assert ds == [ds[0]] + ds[1..];
    }
  }

  // ------------------------------------------------------- the cache

  function CatalogPath(home: string): string {
    CacheDir(home) + CatalogFileName
  }

  /** `read_daerah_file` on the given files: the stored catalog, or `None`
      when the file is missing, is not JSON or is not a catalog. */
  function CachedCatalog(files: map<string, Content>, path: string): Option<seq<Daerah>> {
    match ReadOutcome(files, path)
    case Ok(v) => DecodeCatalog(v)
    case Err(_) => None
  }

  /** The catalog `load_daerah` yields for a home directory: the cached one
      when it reads, the fetched one otherwise. */
  function LoadedCatalog(files: map<string, Content>, provinces: Option<seq<HtmlOption>>,
                         regencies: string -> Option<seq<HtmlOption>>, home: string): Outcome<seq<Daerah>> {
    match CachedCatalog(files, CatalogPath(home))
    case Some(ds) => Done(ds)
    case None => FetchedCatalog(provinces, regencies)
  }

  /** After a catalog has been saved, the next read finds it: a second
      `load_daerah` is served from the cache. */
  lemma SavedCatalogIsRead(files: map<string, Content>, path: string, ds: seq<Daerah>)
    ensures CachedCatalog(files[path := JsonText(EncodeCatalog(ds))], path) == Some(ds)
  {
    CatalogRoundTrip(ds);
  }

  /** `load_daerah`: the cached catalog when it reads; otherwise the fetched
      catalog, saved (whether or not saving works) and returned. The `Err`
      of its result type is never produced. */
  method LoadDaerah(disk: Disk, net: Network, home: Option<string>) returns (r: Outcome<seq<Daerah>>)
    modifies disk`files, disk`dirs, net`log
    ensures !r.Exit?
    ensures home.None? ==>
      r.Panic? && disk.files == old(disk.files) && disk.dirs == old(disk.dirs) && net.log == old(net.log)
    ensures home.Some? ==>
      disk.dirs == if disk.writable then old(disk.dirs) + {CacheDir(home.value)} else old(disk.dirs)
    ensures home.Some? ==> r == LoadedCatalog(old(disk.files), net.provinces, net.regencies, home.value)
    ensures home.Some? && CachedCatalog(old(disk.files), CatalogPath(home.value)).Some? ==>
      && r == Done(CachedCatalog(old(disk.files), CatalogPath(home.value)).value)
      && disk.files == old(disk.files)
      && net.log == old(net.log)
    ensures home.Some? && CachedCatalog(old(disk.files), CatalogPath(home.value)).None? ==>
      && r == FetchedCatalog(net.provinces, net.regencies)
      && net.log == old(net.log) + FetchRequests(net.provinces, net.regencies)
      && disk.files == if r.Done? && disk.writable
                       then old(disk.files)[CatalogPath(home.value) := JsonText(EncodeCatalog(r.value))]
                       else old(disk.files)
  {
    var path := GetCacheName(disk, home, CatalogFileName);
    if path.Aborted() {
      return Panic(path.message);
    }
    var read := disk.ReadJson(path.value);
    var cached := if read.Ok? then DecodeCatalog(read.value) else None;
    if cached.Some? {
      return Done(cached.value);
    }
    var fetched := FetchDaerah(net);
    if fetched.Aborted() {
      return fetched;
    }
    var savePath := GetCacheName(disk, home, CatalogFileName);
    var _ := disk.WriteJson(savePath.value, EncodeCatalog(fetched.value));
    r := Done(fetched.value);
  }
}
