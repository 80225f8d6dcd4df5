/** One month of prayer times for a region (src/jadwal.rs, `load_jadwal`
    and its helpers): the cache file name, the read-through cache, and the
    extraction of one day's entries from the month document. */
module Jadwal {
  import opened Base
  import opened Text
  import opened Json
  import opened Calendar
  import opened Store
  import opened Remote
  import opened Config
  import D = Daerah

  /** One prayer time of a day: its name, its `HH:MM` text, and a distance
      that `load_jadwal` leaves unset. */
  datatype Sholat = Sholat(name: string, date: string, distanceFromNow: Option<int>)

  /** One day: the rendered date label and the prayer times. */
  datatype Jadwal = Jadwal(tanggal: string, items: seq<Sholat>)

  /** The key of a day object that holds the date label, not a prayer time. */
  const TanggalKey := "tanggal"

  // ---------------------------------------------------- the cache file

  /** `generate_jadwal_filename` before the cache directory is prepended:
      lower-cased province, lower-cased regency and the month label, joined
      by `-`, with `.json` at the end. No upper-case letter is left in the
      region part. */
  function MonthFileName(daerah: D.Daerah, bulan: string): (r: string)
    ensures |r| == |daerah.provinsi| + |daerah.kabupaten| + |bulan| + 7
    ensures r[|r| - |bulan| - 6..] == "-" + bulan + ".json"
    ensures !HasUpper(r[..|daerah.provinsi| + |daerah.kabupaten| + 1])
    ensures r[|daerah.provinsi|] == '-'
    ensures r[..|daerah.provinsi|] == Lower(daerah.provinsi)
    ensures r[|daerah.provinsi| + 1..|daerah.provinsi| + 1 + |daerah.kabupaten|] == Lower(daerah.kabupaten)
  {
    Lower(daerah.provinsi) + "-" + Lower(daerah.kabupaten) + "-" + bulan + ".json"
  }

  /** The file a month of schedule is read from and saved to: the cache
      directory followed by the region's month file name, which ends in the
      month label and `.json`. */
  function MonthPath(home: string, daerah: D.Daerah, date: Date): (r: string)
    requires ValidDate(date)
    ensures |r| == |CacheDir(home)| + |daerah.provinsi| + |daerah.kabupaten| + 14
    ensures r[..|CacheDir(home)|] == CacheDir(home)
    ensures r[|r| - 12..] == FormatMonth(date) + ".json"
    ensures r[|CacheDir(home)|..] == MonthFileName(daerah, FormatMonth(date))
  {
    CacheDir(home) + MonthFileName(daerah, FormatMonth(date))
  }

  /** Each month of a region has a file of its own: two dates share a file
      exactly when they fall in the same month. */
  lemma MonthPathSeparatesMonths(home: string, daerah: D.Daerah, d1: Date, d2: Date)
    requires ValidDate(d1) && ValidDate(d2)
    ensures MonthPath(home, daerah, d1) == MonthPath(home, daerah, d2) <==> (d1.year == d2.year && d1.month == d2.month)
  {
    var p1, p2 := MonthPath(home, daerah, d1), MonthPath(home, daerah, d2);
    if p1 == p2 {
      assert FormatMonth(d1) == (FormatMonth(d1) + ".json")[..7] == p1[|p1| - 12..][..7];
      assert FormatMonth(d2) == (FormatMonth(d2) + ".json")[..7] == p2[|p2| - 12..][..7];
    }
    FormatMonthInjective(d1, d2);
  }

  /** The name is not injective in the region: names containing `-` can
      collide, so ("a-b", "c") and ("a", "b-c") share every month file. */
  lemma MonthFileNameCollides(bulan: string)
    ensures MonthFileName(D.Daerah("a-b", "", "c", ""), bulan) == MonthFileName(D.Daerah("a", "", "b-c", ""), bulan)
  {
    assert Lower("a-b") == "a-b";
    assert Lower("c") == "c";
    assert Lower("a") == "a";
    assert Lower("b-c") == "b-c";
  }

  // ------------------------------------------------- one day's entries

  /** A prayer time's text: a JSON string verbatim, anything else empty. */
  function TimeText(v: Value): string {
    if v.Str? then v.s else ""
  }

  function ItemOf(entry: (string, Value)): Sholat {
    Sholat(entry.0, TimeText(entry.1), None)
  }

  /** The items of a day object: every entry but the date label, in entry
      order; none is named `tanggal`, and none has a distance yet. */
  function ItemsOf(entries: seq<(string, Value)>): (r: seq<Sholat>)
    ensures |r| <= |entries|
    ensures Lookup(entries, TanggalKey).Some? ==> |r| < |entries|
    ensures forall k :: 0 <= k < |r| ==> r[k].name != TanggalKey && r[k].distanceFromNow.None?
  {
    if entries == [] then []
    else
      var last := entries[|entries| - 1];
      ItemsOf(entries[..|entries| - 1]) + (if last.0 == TanggalKey then [] else [ItemOf(last)])
  }

  /** Items keep the order of the entries they come from. */
  lemma {:induction false} ItemsOfAppend(a: seq<(string, Value)>, b: seq<(string, Value)>)
    ensures ItemsOf(a + b) == ItemsOf(a) + ItemsOf(b)
    decreases |b|
  {
    if b == [] {
      assert a + b == a;
    } else {
      ItemsOfAppend(a, b[..|b| - 1]);
      assert (a + b)[..|a + b| - 1] == a + b[..|b| - 1];
    }
  }

  /** Every item comes from an entry other than the date label, and every
      such entry gives an item, with the string value copied, any other
      value turned into "", and no distance. */
  lemma {:induction false} ItemsOfMembers(entries: seq<(string, Value)>)
    ensures forall it :: it in ItemsOf(entries) ==>
      exists j :: 0 <= j < |entries| && entries[j].0 != TanggalKey && it == ItemOf(entries[j])
    ensures forall j :: 0 <= j < |entries| && entries[j].0 != TanggalKey ==> ItemOf(entries[j]) in ItemsOf(entries)
    ensures forall it :: it in ItemsOf(entries) ==> it.distanceFromNow.None?
  {
    if entries != [] {
      var init := entries[..|entries| - 1];
      ItemsOfMembers(init);
      assert forall j :: 0 <= j < |init| ==> init[j] == entries[j];
    }
  }

  /** With distinct keys, there is one item per entry except the date label. */
  lemma {:induction false} ItemsOfCount(entries: seq<(string, Value)>)
    requires DistinctKeys(entries)
    ensures |ItemsOf(entries)| == |entries| - (if Lookup(entries, TanggalKey).Some? then 1 else 0)
  {
    if entries != [] {
      var init := entries[..|entries| - 1];
      var last := entries[|entries| - 1];
      assert DistinctKeys(init);
      ItemsOfCount(init);
      if last.0 == TanggalKey {
        assert forall j :: 0 <= j < |init| ==> init[j].0 != TanggalKey;
        assert Lookup(init, TanggalKey).None?;
        assert Lookup(entries, TanggalKey).Some?;
      } else {
        assert Lookup(entries, TanggalKey).Some? <==> Lookup(init, TanggalKey).Some?;
      }
    }
  }

  /** The panic of indexing a `serde_json::Map` by an absent key. */
  const MissingKey := "no entry found for key"

  /** The rest of `load_jadwal` once the month document is known: the entry
      for the requested day, turned into a `Jadwal`. */
  function Day(month: Value, date: Date): (r: Outcome<Jadwal>)
    requires ValidDate(date)
    ensures r.Exit? ==> r.code == 1
    ensures r.Panic? ==> r.message == MissingKey
    ensures r.Done? ==> Index(month, FormatDate(date)).Object?
    ensures r.Done? ==> |r.value.items| < |Index(month, FormatDate(date)).entries|
  {
    var hari := FormatDate(date);
    match Index(month, hari)
    case Object(entries) =>
      (match Lookup(entries, TanggalKey)
       case None => Panic(MissingKey)
       case Some(tanggal) => Done(Jadwal(Render(tanggal), ItemsOf(entries))))
    case Null => Exit(1, "No jadwal for " + hari)
    case _ => Exit(1, "Invalid jadwal type")
  }

  /** The four ends of the day lookup, stated on the month document: a day
      object with a date label goes on, a day object without one panics, a
      missing day, a `null` day or a month that is not an object at all ends
      with "No jadwal", any other value with "Invalid jadwal type". */
  lemma DayOutcomes(month: Value, date: Date)
    requires ValidDate(date)
    ensures var hari := FormatDate(date);
      var day := if month.Object? then Lookup(month.entries, hari) else None;
      && (Day(month, date).Done? <==>
            day.Some? && day.value.Object? && Lookup(day.value.entries, TanggalKey).Some?)
      && (Day(month, date) == Panic(MissingKey) <==>
            day.Some? && day.value.Object? && Lookup(day.value.entries, TanggalKey).None?)
      && (Day(month, date) == Exit(1, "No jadwal for " + hari) <==>
            day.None? || day == Some(Null))
      && (Day(month, date) == Exit(1, "Invalid jadwal type") <==>
            day.Some? && !day.value.Object? && !day.value.Null?)
  {
  }

  /** A day that loads carries the entries of its day object as items, and
      as date label the JSON rendering of the `tanggal` entry rather than its
      raw text (a string comes back quoted, see `RenderString`). */
  lemma DayContents(month: Value, date: Date)
    requires ValidDate(date) && Day(month, date).Done?
    ensures var day := Index(month, FormatDate(date));
      var loaded := Day(month, date).value;
      && day.Object?
      && Lookup(day.entries, TanggalKey).Some?
      && loaded.items == ItemsOf(day.entries)
      && loaded.tanggal == Render(Lookup(day.entries, TanggalKey).value)
  {
  }

  /** The loop of `load_jadwal` that turns a day object into items. */
  method ExtractItems(entries: seq<(string, Value)>) returns (items: seq<Sholat>)
    ensures items == ItemsOf(entries)
  {
    items := [];
    for i := 0 to |entries|
      invariant items == ItemsOf(entries[..i])
    {
      var (key, value) := entries[i];
      assert entries[..i + 1][..i] == entries[..i];
      if key == TanggalKey {
        continue;
      }
      var val := match value
        case Str(v) => v
        case _ => "";
      items := items + [Sholat(key, val, None)];
    }
    assert entries[..|entries|] == entries;
  }

  // --------------------------------------------------- the remote source

  /** The form `fetch_jadwal` posts: both tokens, the month and the year as
      unpadded decimals. */
  function MonthRequest(daerah: D.Daerah, date: Date): Request
    requires ValidDate(date)
  {
    PostMonth(daerah.provinsiToken, daerah.kabupatenToken, NatToString(date.month), IntToString(date.year))
  }

  /** What `fetch_jadwal` yields: the `data` member of the answer (`null`
      when there is none), or a panic when the request fails. */
  function FetchedMonth(schedule: (string, string, string, string) -> Option<Value>, daerah: D.Daerah, date: Date): Outcome<Value>
    requires ValidDate(date)
  {
    var req := MonthRequest(daerah, date);
    match schedule(req.x, req.y, req.bln, req.thn)
    case None => Panic("Failed load kabupaten")
    case Some(response) => Done(Index(response, "data"))
  }

  method FetchJadwal(net: Network, daerah: D.Daerah, date: Date) returns (r: Outcome<Value>)
    requires ValidDate(date)
    modifies net`log
    ensures net.log == old(net.log) + [MonthRequest(daerah, date)]
    ensures r == FetchedMonth(net.schedule, daerah, date)
  {
    var req := MonthRequest(daerah, date);
    var response := net.FetchMonth(req.x, req.y, req.bln, req.thn);
    if response.None? {
      return Panic("Failed load kabupaten");
    }
    r := Done(Index(response.value, "data"));
  }

  // ------------------------------------------------------- load_jadwal

  /** `load_jadwal`: the month document from the cache file when it reads,
      otherwise fetched once and saved once to the same file (a failed save
      is ignored); then the requested day of it. */
  method LoadJadwal(disk: Disk, net: Network, home: Option<string>, daerah: D.Daerah, date: Date) returns (r: Outcome<Jadwal>)
    requires ValidDate(date)
    modifies disk`files, disk`dirs, net`log
    ensures home.None? ==>
      r.Panic? && disk.files == old(disk.files) && disk.dirs == old(disk.dirs) && net.log == old(net.log)
    ensures home.Some? ==>
      disk.dirs == if disk.writable then old(disk.dirs) + {CacheDir(home.value)} else old(disk.dirs)
    ensures home.Some? && ReadOutcome(old(disk.files), MonthPath(home.value, daerah, date)).Ok? ==>
      && r == Day(ReadOutcome(old(disk.files), MonthPath(home.value, daerah, date)).value, date)
      && disk.files == old(disk.files)
      && net.log == old(net.log)
    ensures home.Some? && ReadOutcome(old(disk.files), MonthPath(home.value, daerah, date)).Err? ==>
      && net.log == old(net.log) + [MonthRequest(daerah, date)]
      && (FetchedMonth(net.schedule, daerah, date).Panic? ==>
            r == Panic(FetchedMonth(net.schedule, daerah, date).message) && disk.files == old(disk.files))
      && (FetchedMonth(net.schedule, daerah, date).Done? ==>
            && r == Day(FetchedMonth(net.schedule, daerah, date).value, date)
            && disk.files == if disk.writable
                             then old(disk.files)[MonthPath(home.value, daerah, date) := JsonText(FetchedMonth(net.schedule, daerah, date).value)]
                             else old(disk.files))
  {
    var bulan := FormatMonth(date);
    var filename := GetCacheName(disk, home, MonthFileName(daerah, bulan));
    if filename.Aborted() {
      return Panic(filename.message);
    }
    var read := disk.ReadJson(filename.value);
    var vecJadwal: Value;
    if read.Ok? {
      vecJadwal := read.value;
    } else {
      var fetched := FetchJadwal(net, daerah, date);
      if fetched.Aborted() {
        return Panic(fetched.message);
      }
      vecJadwal := fetched.value;
      var saveName := GetCacheName(disk, home, MonthFileName(daerah, bulan));
      var _ := disk.WriteJson(saveName.value, vecJadwal);
    }

    var hari := FormatDate(date);
    var jadwalObj: seq<(string, Value)>;
    match Index(vecJadwal, hari) {
      case Object(entries) => jadwalObj := entries;
      case Null => return Exit(1, "No jadwal for " + hari);
      case _ => return Exit(1, "Invalid jadwal type");
    }
    var items := ExtractItems(jadwalObj);
    var tanggal := Lookup(jadwalObj, TanggalKey);
    if tanggal.None? {
      return Panic(MissingKey);
    }
    r := Done(Jadwal(Render(tanggal.value), items));
  }
}
