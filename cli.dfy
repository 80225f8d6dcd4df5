/** The command line (src/main.rs): `<program> <date> <provinsi>
    <kabupaten>`, the region lookup in the catalog, and the schedule of the
    requested day for the region found. */
module Cli {
  import opened Base
  import opened Text
  import opened Calendar
  import opened Store
  import opened Remote
  import opened Daerah
  import opened Jadwal

  /** The parsed command line: the day and the upper-cased region names. */
  datatype Query = Query(date: Date, provinsi: string, kabupaten: string)

  /** The panic of `args[0]` on an empty argument list. */
  const IndexPanic := "index out of bounds"

  function Usage(program: string): string {
    "Usage: " + program + " <date> <provinsi> <kabupaten>"
  }

  /** Lines 15-22 of `main`: exactly four arguments, a `%Y-%m-%d` date, and
      both names upper-cased with nothing trimmed. */
  function ParseArgs(args: seq<string>): (r: Outcome<Query>)
    ensures r.Done? <==> |args| == 4 && ParseDate(args[1]).Some?
    ensures |args| == 0 ==> r == Panic(IndexPanic)
    ensures 0 < |args| != 4 ==> r == Exit(1, Usage(args[0]))
    ensures |args| == 4 && ParseDate(args[1]).None? ==> r == Panic("failed parse date")
    ensures r.Done? ==>
      && ValidDate(r.value.date)
      && FormatDate(r.value.date) == args[1]
      && r.value.provinsi == Upper(args[2])
      && r.value.kabupaten == Upper(args[3])
  {
    if |args| != 4 then
      if |args| == 0 then Panic(IndexPanic) else Exit(1, Usage(args[0]))
    else
      match ParseDate(args[1])
      case None => Panic("failed parse date")
      case Some(date) =>
        FormatParseDate(args[1]);
        Done(Query(date, Upper(args[2]), Upper(args[3])))
  }

  /** Every day can be asked for: the command line naming it by its own
      rendering is accepted and reads back that day. */
  lemma ParseArgsOfDate(program: string, date: Date, provinsi: string, kabupaten: string)
    requires ValidDate(date)
    ensures ParseArgs([program, FormatDate(date), provinsi, kabupaten])
      == Done(Query(date, Upper(provinsi), Upper(kabupaten)))
  {
    ParseFormatDate(date);
  }

  /** The `find` predicate of line 27: both names equal, exactly. */
  predicate Matches(d: Daerah, provinsi: string, kabupaten: string) {
    d.provinsi == provinsi && d.kabupaten == kabupaten
  }

  /** `iter().find(...)`: the position of the first matching record. */
  function FirstMatch(catalog: seq<Daerah>, provinsi: string, kabupaten: string): (r: Option<nat>)
    ensures r.None? <==> forall i :: 0 <= i < |catalog| ==> !Matches(catalog[i], provinsi, kabupaten)
    ensures r.Some? ==> r.value < |catalog| && Matches(catalog[r.value], provinsi, kabupaten)
    ensures r.Some? ==> forall j :: 0 <= j < r.value ==> !Matches(catalog[j], provinsi, kabupaten)
  {
    if catalog == [] then None
    else if Matches(catalog[0], provinsi, kabupaten) then Some(0)
    else
      match FirstMatch(catalog[1..], provinsi, kabupaten)
      case None => None
      case Some(i) => Some(i + 1)
  }

  /** A record whose stored province or regency holds a lower-case letter
      is never selected, whatever the user types. */
  lemma LowerCaseNeverSelected(catalog: seq<Daerah>, provinsi: string, kabupaten: string)
    ensures FirstMatch(catalog, Upper(provinsi), Upper(kabupaten)).Some? ==>
      var d := catalog[FirstMatch(catalog, Upper(provinsi), Upper(kabupaten)).value];
      !HasLower(d.provinsi) && !HasLower(d.kabupaten)
  {
  }

  /** The user's spelling of the case does not matter. */
  lemma QueryIgnoresCase(program: string, date: string, p1: string, k1: string, p2: string, k2: string)
    requires Upper(p1) == Upper(p2) && Upper(k1) == Upper(k2)
    ensures ParseArgs([program, date, p1, k1]) == ParseArgs([program, date, p2, k2])
  {
  }

  function NotExist(provinsi: string, kabupaten: string): string {
    "Daerah '" + provinsi + " " + kabupaten + "' not exist in file"
  }

  /** `main` up to the schedule of the day: parse the command line, load the
      catalog, find the region, load its schedule. `home` stands for the
      home directory the process sees. */
  method Run(args: seq<string>, disk: Disk, net: Network, home: Option<string>) returns (r: Outcome<(Daerah, Jadwal)>)
    modifies disk`files, disk`dirs, net`log
    ensures ParseArgs(args).Aborted() ==>
      r == ParseArgs(args).Forward() && unchanged(disk) && net.log == old(net.log)
    ensures ParseArgs(args).Done? && home.None? ==> r.Panic?
    ensures ParseArgs(args).Done? && home.Some? ==>
      var q := ParseArgs(args).value;
      var loaded := LoadedCatalog(old(disk.files), net.provinces, net.regencies, home.value);
      && (loaded.Aborted() ==> r == loaded.Forward())
      && (loaded.Done? && FirstMatch(loaded.value, q.provinsi, q.kabupaten).None? ==>
            r == Exit(1, NotExist(q.provinsi, q.kabupaten)))
      && (loaded.Done? && FirstMatch(loaded.value, q.provinsi, q.kabupaten).Some? && r.Done? ==>
            r.value.0 == loaded.value[FirstMatch(loaded.value, q.provinsi, q.kabupaten).value])
  {
    var query := ParseArgs(args);
    if query.Aborted() {
      return query.Forward();
    }
    var vecDaerah := LoadDaerah(disk, net, home);
    if vecDaerah.Aborted() {
      return vecDaerah.Forward();
    }
    var found := FirstMatch(vecDaerah.value, query.value.provinsi, query.value.kabupaten);
    if found.None? {
      return Exit(1, NotExist(query.value.provinsi, query.value.kabupaten));
    }
    var daerah := vecDaerah.value[found.value];
    var jadwal := LoadJadwal(disk, net, home, daerah, query.value.date);
    if jadwal.Aborted() {
      return jadwal.Forward();
    }
    r := Done((daerah, jadwal.value));
  }
}
