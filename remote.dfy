/** The remote web service, reduced to what it answers and a log of the
    requests the program sends it. */
module Remote {
  import opened Base
  import opened Json

  /** One `<option>` element: its inner HTML and its `value` attribute. */
  datatype HtmlOption = HtmlOption(inner: string, value: Option<string>)

  /** The HTTP requests the program makes. */
  datatype Request =
    | GetProvincePage                                            // GET  /jadwalshalat
    | PostRegencies(x: string)                                   // POST /ajax/getKabkoshalat, form x
    | PostMonth(x: string, y: string, bln: string, thn: string)  // POST /ajax/getShalatbln, form x, y, bln, thn

  class Network {
    /** The options of `select#search_prov` on the schedule page; `None` when
        the request, reading the body or finding the select fails. */
    const provinces: Option<seq<HtmlOption>>
    /** The `<option>`s answered for a province token; `None` when the
        request or reading the body fails. */
    const regencies: string -> Option<seq<HtmlOption>>
    /** The JSON answered for form fields x, y, bln, thn; `None` when the
        request fails or the body is not JSON. */
    const schedule: (string, string, string, string) -> Option<Value>
    /** Every request sent so far, oldest first. */
    var log: seq<Request>

    constructor (provinces: Option<seq<HtmlOption>>,
                 regencies: string -> Option<seq<HtmlOption>>,
                 schedule: (string, string, string, string) -> Option<Value>)
      ensures this.provinces == provinces && this.regencies == regencies && this.schedule == schedule
      ensures log == []
    {
      this.provinces := provinces;
      this.regencies := regencies;
      this.schedule := schedule;
      log := [];
    }

    method GetProvinces() returns (r: Option<seq<HtmlOption>>)
      modifies this`log
      ensures log == old(log) + [GetProvincePage]
      ensures r == provinces
    {
      log := log + [GetProvincePage];
      r := provinces;
    }

    method FetchRegencies(x: string) returns (r: Option<seq<HtmlOption>>)
      modifies this`log
      ensures log == old(log) + [PostRegencies(x)]
      ensures r == regencies(x)
    {
      log := log + [PostRegencies(x)];
      r := regencies(x);
    }

    method FetchMonth(x: string, y: string, bln: string, thn: string) returns (r: Option<Value>)
      modifies this`log
      ensures log == old(log) + [PostMonth(x, y, bln, thn)]
      ensures r == schedule(x, y, bln, thn)
    {
      log := log + [PostMonth(x, y, bln, thn)];
      r := schedule(x, y, bln, thn);
    }
  }
}
