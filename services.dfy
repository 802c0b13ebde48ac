/**
 * The service catalogue (`market_service_list`) and the storefront's order
 * text: looking up a service number by name and option, the number as the
 * scraper stores it, parsing an order's option text, and classifying a
 * service name into the protocol the router runs.
 */
module Services {
  import opened Text

  /** One catalogue row: `서비스유무`, `서비스이름`, `세부선택`, `서비스번호`. */
  datatype ServiceRow = ServiceRow(enabled: int, name: string, option: string, code: int)

  /** The result when no enabled row matches. */
  const NoService: int := -1

  predicate Matches(row: ServiceRow, name: string, option: string) {
    row.enabled == 1 && row.name == name && row.option == option
  }

  /**
   * `get_service_number`: the number of the first enabled row whose name and
   * option both match, or -1.
   */
  function GetServiceNumber(rows: seq<ServiceRow>, name: string, option: string): (r: int)
    ensures r != NoService ==> exists k :: 0 <= k < |rows| && Matches(rows[k], name, option) && rows[k].code == r
  {
    if |rows| == 0 then NoService
    else if Matches(rows[0], name, option) then rows[0].code
    else
      var r := GetServiceNumber(rows[1..], name, option);
      assert forall k :: 1 <= k < |rows| ==> rows[k] == rows[1..][k - 1];
      r
  }

  /** The number found is that of the first matching row; with no match it is -1. */
  lemma {:induction false} FirstEnabledMatch(rows: seq<ServiceRow>, name: string, option: string)
    ensures var r := GetServiceNumber(rows, name, option);
      && ((exists k :: 0 <= k < |rows| && Matches(rows[k], name, option)) ==>
            exists k :: 0 <= k < |rows| && Matches(rows[k], name, option) && r == rows[k].code
                        && forall j :: 0 <= j < k ==> !Matches(rows[j], name, option))
      && ((forall k :: 0 <= k < |rows| ==> !Matches(rows[k], name, option)) ==> r == NoService)
  {
    if |rows| > 0 && !Matches(rows[0], name, option) {
      FirstEnabledMatch(rows[1..], name, option);
      assert forall k :: 1 <= k < |rows| ==> rows[k] == rows[1..][k - 1];
      if exists k :: 0 <= k < |rows| && Matches(rows[k], name, option) {
        var k :| 0 <= k < |rows| && Matches(rows[k], name, option);
        assert Matches(rows[1..][k - 1], name, option);
        var k' :| 0 <= k' < |rows| - 1 && Matches(rows[1..][k'], name, option)
                 && GetServiceNumber(rows, name, option) == rows[1..][k'].code
                 && forall j :: 0 <= j < k' ==> !Matches(rows[1..][j], name, option);
        assert Matches(rows[k' + 1], name, option);
        assert forall j :: 1 <= j < k' + 1 ==> !Matches(rows[j], name, option);
      }
    } else if |rows| > 0 {
      assert Matches(rows[0], name, option);
    }
  }

  /** A row that is switched off (`서비스유무` other than 1) is never found. */
  lemma {:induction false} DisabledRowIgnored(rows: seq<ServiceRow>, k: nat, name: string, option: string)
    requires k < |rows| && rows[k].enabled != 1
    ensures GetServiceNumber(rows, name, option)
         == GetServiceNumber(rows[..k] + rows[k + 1..], name, option)
    decreases k
  {
    var t := rows[..k] + rows[k + 1..];
    if k > 0 {
      DisabledRowIgnored(rows[1..], k - 1, name, option);
      assert t[0] == rows[0];
      assert t[1..] == rows[1..][..k - 1] + rows[1..][k..];
    } else {
      assert rows[..k] + rows[k + 1..] == rows[1..];
    }
  }

  /**
   * The `service_num` a scraped order carries: `str(service)`, the row being
   * skipped when the number is 0.  The miss value -1 is not filtered and is
   * carried as `"-1"`.
   */
  function ScrapedServiceNum(rows: seq<ServiceRow>, name: string, option: string): (r: Option<string>)
    ensures r.None? <==> GetServiceNumber(rows, name, option) == 0
    ensures r.Some? ==> ParseInt(r.value) == Some(GetServiceNumber(rows, name, option))
  {
    var n := GetServiceNumber(rows, name, option);
    ParseIntToStr(n);
    if n == 0 then None else Some(IntToStr(n))
  }

  /** An unknown service still produces an order, numbered `"-1"`. */
  lemma MissingServiceKept(rows: seq<ServiceRow>, name: string, option: string)
    requires forall k :: 0 <= k < |rows| ==> !Matches(rows[k], name, option)
    ensures ScrapedServiceNum(rows, name, option) == Some("-1")
  {
    FirstEnabledMatch(rows, name, option);
    assert DigitChar(1) == '1';
    assert IntToStr(-1) == "-1";
  }

  /**
   * The router's lookup `service_sheet[service_sheet['서비스번호'] == n].iloc[0]`:
   * the first row with that number, switched on or not.
   */
  function RowByCode(rows: seq<ServiceRow>, code: int): (r: Option<ServiceRow>)
    ensures r.Some? ==> r.value in rows && r.value.code == code
    ensures r.None? <==> forall k :: 0 <= k < |rows| ==> rows[k].code != code
    ensures r.Some? ==> exists k :: 0 <= k < |rows| && rows[k] == r.value
                                    && forall j :: 0 <= j < k ==> rows[j].code != code
  {
    if |rows| == 0 then None
    else if rows[0].code == code then Some(rows[0])
    else
      var r := RowByCode(rows[1..], code);
      assert forall k :: 1 <= k < |rows| ==> rows[k] == rows[1..][k - 1];
      r
  }

  /** The name of the row a scraped service number leads the router back to. */
  lemma {:induction false} LookupRoundTrip(rows: seq<ServiceRow>, name: string, option: string)
    requires GetServiceNumber(rows, name, option) != 0
    requires exists k :: 0 <= k < |rows| && Matches(rows[k], name, option)
    requires forall j, k :: 0 <= j < k < |rows| ==> rows[j].code != rows[k].code
    ensures var s := ScrapedServiceNum(rows, name, option).value;
      RowByCode(rows, ParseInt(s).value) == Some(ServiceRow(1, name, option, GetServiceNumber(rows, name, option)))
  {
    var n := GetServiceNumber(rows, name, option);
    FirstEnabledMatch(rows, name, option);
    var k :| 0 <= k < |rows| && Matches(rows[k], name, option) && n == rows[k].code;
    ParseIntToStr(n);
    var r := RowByCode(rows, n);
    var k2 :| 0 <= k2 < |rows| && rows[k2] == r.value && forall j :: 0 <= j < k2 ==> rows[j].code != n;
    assert k2 == k;
  }

  /** Text between the first and the second ` : ` of a line, stripped; `None` where `[1]` raises. */
  function FieldValue(line: string): (r: Option<string>)
    ensures r.Some? <==> Contains(line, " : ")
  {
    var parts := Split(line, " : ");
    if |parts| < 2 then None else Some(Strip(parts[1]))
  }

  /**
   * `get_od_info`: the link and the option of an order's option text.  With
   * two or more lines the first carries the option and the second the link;
   * a single line carries only the link.  `None` where a needed line has no
   * ` : ` (the `IndexError` escapes the scraper).
   */
  function GetOdInfo(text: string): (r: Option<(string, string)>)
    ensures var lines := Split(text, "\n");
      r.Some? <==> if |lines| > 1 then Contains(lines[0], " : ") && Contains(lines[1], " : ")
                   else Contains(text, " : ")
    ensures r.Some? && !Contains(text, "\n") ==> r.value.1 == ""
  {
    var lines := Split(text, "\n");
    if |lines| > 1 then
      match (FieldValue(lines[0]), FieldValue(lines[1]))
      case (Some(option), Some(url)) => Some((url, option))
      case _ => None
    else
      match FieldValue(lines[0])
      case Some(url) => Some((url, ""))
      case None => None
  }

  /**
   * An option text written as `key : option` over `key : link`, with any
   * further lines after them, gives back the link and the option, stripped.
   */
  lemma {:induction false} GetOdInfoTwoLines(key1: string, option: string, key2: string, url: string, more: string)
    requires Find(key1 + " : ", " : ") == Some(|key1|) && Find(key2 + " : ", " : ") == Some(|key2|)
    requires !Contains(option, " : ") && !Contains(url, " : ")
    requires '\n' !in key1 && '\n' !in option && '\n' !in key2 && '\n' !in url
    requires more == "" || more[0] == '\n'
    ensures GetOdInfo(key1 + " : " + option + "\n" + key2 + " : " + url + more) == Some((Strip(url), Strip(option)))
  {
    var line0 := key1 + " : " + option;
    var line1 := key2 + " : " + url;
    assert '\n' !in line0 && '\n' !in line1;
    CharAppended(line0, '\n');
    SplitAfter(line0, "\n", line1 + more);
    assert line0 + "\n" + (line1 + more) == key1 + " : " + option + "\n" + key2 + " : " + url + more;
    if more == "" {
      assert line1 + more == line1;
      CharAbsent(line1, '\n');
    } else {
      CharAppended(line1, '\n');
      assert line1 + more == line1 + "\n" + more[1..];
      SplitAfter(line1, "\n", more[1..]);
    }
    SplitAfter(key1, " : ", option);
    SplitAfter(key2, " : ", url);
  }

  /** A single line `key : link` gives back the link and an empty option. */
  lemma {:induction false} GetOdInfoOneLine(key: string, url: string)
    requires Find(key + " : ", " : ") == Some(|key|)
    requires !Contains(url, " : ")
    requires '\n' !in key && '\n' !in url
    ensures GetOdInfo(key + " : " + url) == Some((Strip(url), ""))
  {
    var line := key + " : " + url;
    assert '\n' !in line;
    CharAbsent(line, '\n');
    SplitAfter(key, " : ", url);
  }
}
