/**
 * The CRUD page's routing: the optional catch-all `method` route parameter is
 * parsed into the page to show, and the resource's base path is recovered
 * from the current pathname. Also the form defaults and the list page's
 * `getMany` parameters.
 */
module CrudPage {
  import opened Common
  import opened Text
  import DataProvider

  /** The `method` route parameter: missing, one string, or an array of strings. */
  datatype MethodParam = NoParam | One(s: string) | Many(ss: seq<string>)

  /** `asArray`: an array as is, a missing value as [], anything else wrapped. */
  function AsArray(param: MethodParam): (segments: seq<string>)
    ensures param.Many? ==> segments == param.ss
    ensures param.NoParam? ==> segments == []
    ensures param.One? ==> segments == [param.s]
  {
    match param
    case NoParam => []
    case One(s) => [s]
    case Many(ss) => ss
  }

  datatype ParsedMethod = List | New | Show(id: string) | Edit(id: string)

  /**
   * `parseMethod`: no segment is the list, ["new"] the creation page,
   * ["edit", id] and ["show", id] the record pages; anything else is None (null).
   */
  function ParseMethod(param: MethodParam): (m: Option<ParsedMethod>)
    ensures var segments := AsArray(param);
      (m == Some(List) <==> segments == []) &&
      (m == Some(New) <==> segments == ["new"]) &&
      (forall id :: m == Some(Edit(id)) <==> segments == ["edit", id]) &&
      (forall id :: m == Some(Show(id)) <==> segments == ["show", id])
  {
    var segments := AsArray(param);
    if |segments| == 0 then Some(List)
    else if segments[0] == "new" && |segments| == 1 then Some(New)
    else if segments[0] == "edit" && |segments| == 2 then Some(Edit(segments[1]))
    else if segments[0] == "show" && |segments| == 2 then Some(Show(segments[1]))
    else None
  }

  /**
   * The routes that name a page: no segment, ["new"], or two segments starting
   * with "edit" or "show". Every other route is not found.
   */
  lemma {:induction false} RoutesThatParse(param: MethodParam)
    ensures var segments := AsArray(param);
      ParseMethod(param).Some? <==>
        segments == [] || segments == ["new"] ||
        (|segments| == 2 && (segments[0] == "edit" || segments[0] == "show"))
  {
    var segments := AsArray(param);
    if |segments| == 2 && segments[0] == "edit" {
      assert segments == ["edit", segments[1]];
    } else if |segments| == 2 && segments[0] == "show" {
      assert segments == ["show", segments[1]];
    }
  }

  /** The page `CrudPage` renders. */
  datatype Page = ListPage | NewPage | EditPage(id: string) | ShowPage(id: string) | NotFound

  /** `CrudPage`'s choice of content: `PageContent` for a parsed method, "Not found" otherwise. */
  function RenderedPage(param: MethodParam): (page: Page)
    ensures page.NotFound? <==> ParseMethod(param).None?
    ensures page == ListPage <==> ParseMethod(param) == Some(List)
    ensures page == NewPage <==> ParseMethod(param) == Some(New)
    ensures forall id :: page == EditPage(id) <==> ParseMethod(param) == Some(Edit(id))
    ensures forall id :: page == ShowPage(id) <==> ParseMethod(param) == Some(Show(id))
  {
    match ParseMethod(param)
    case None => NotFound
    case Some(List) => ListPage
    case Some(New) => NewPage
    case Some(Edit(id)) => EditPage(id)
    case Some(Show(id)) => ShowPage(id)
  }

  // ---------------------------------------------------------------------------
  // Paths

  /** `xs.slice(0, -n)` for n > 0: everything but the last n elements (nothing if there are fewer). */
  function DropLast<T>(xs: seq<T>, n: nat): (ys: seq<T>)
    requires n > 0
    ensures |xs| <= n ==> ys == []
    ensures |xs| > n ==> ys == xs[..|xs| - n]
  {
    if |xs| <= n then [] else xs[..|xs| - n]
  }

  /**
   * The base path of the resource: the pathname with as many trailing
   * "/"-separated components dropped as there are method segments.
   */
  function BasePath(param: MethodParam, pathname: string): (base: string)
    ensures AsArray(param) == [] ==> base == pathname
    ensures AsArray(param) != [] ==> base == Join(DropLast(Split(pathname, '/'), |AsArray(param)|), '/')
  {
    var segments := AsArray(param);
    if |segments| > 0 then Join(DropLast(Split(pathname, '/'), |segments|), '/') else pathname
  }

  /**
   * With n method segments, the base path's components are the pathname's
   * without its last n; when the pathname has no more than n, the base path is "".
   */
  lemma {:induction false} BasePathDropsMethodComponents(param: MethodParam, pathname: string)
    ensures var parts := Split(pathname, '/');
      var n := |AsArray(param)|;
      (n < |parts| ==> Split(BasePath(param, pathname), '/') == parts[..|parts| - n]) &&
      (n >= |parts| ==> BasePath(param, pathname) == "")
  {
    var parts := Split(pathname, '/');
    var n := |AsArray(param)|;
    if n == 0 {
      assert parts[..|parts|] == parts;
    } else if n < |parts| {
      var kept := parts[..|parts| - n];
      assert forall i :: 0 <= i < |kept| ==> kept[i] == parts[i];
      SplitJoin(kept, '/');
    }
  }

  /** The method segments of a page. */
  function MethodSegments(m: ParsedMethod): seq<string> {
    match m
    case List => []
    case New => ["new"]
    case Edit(id) => ["edit", id]
    case Show(id) => ["show", id]
  }

  /** What the router passes for the segments after the base path (an optional catch-all). */
  function RouteParam(segments: seq<string>): MethodParam {
    if segments == [] then NoParam else Many(segments)
  }

  /** The link to a page of the resource: `${basePath}/new`, `${basePath}/edit/${id}`, .... */
  function PagePath(basePath: string, m: ParsedMethod): (path: string)
    ensures m.List? ==> path == basePath
    ensures m.New? ==> path == basePath + "/new"
    ensures m.Edit? ==> path == basePath + "/edit/" + m.id
    ensures m.Show? ==> path == basePath + "/show/" + m.id
  {
    var segments := MethodSegments(m);
    if segments == [] then basePath
    else
      var path := basePath + "/" + Join(segments, '/');
      assert m.Edit? || m.Show? ==> Join(segments, '/') == segments[0] + "/" + segments[1];
      path
  }

  /** Navigating to a page lands on that page, and its base path is the one linked from. */
  lemma {:induction false} NavigationRoundTrip(basePath: string, m: ParsedMethod)
    requires m.Edit? || m.Show? ==> '/' !in m.id
    ensures var param := RouteParam(MethodSegments(m));
      ParseMethod(param) == Some(m) &&
      BasePath(param, PagePath(basePath, m)) == basePath
  {
    var segments := MethodSegments(m);
    if segments != [] {
      var joined := Join(segments, '/');
      assert forall i :: 0 <= i < |segments| ==> '/' !in segments[i];
      SplitJoin(segments, '/');
      SplitAroundSeparator(basePath, joined, '/');
      var parts := Split(basePath, '/') + segments;
      assert Split(PagePath(basePath, m), '/') == parts;
      assert DropLast(parts, |segments|) == Split(basePath, '/');
      JoinSplit(basePath, '/');
    }
  }

  // ---------------------------------------------------------------------------
  // Form defaults

  /** A value of the kind a form input for the field's type holds. */
  predicate FitsType(v: Value, t: DataProvider.FieldType) {
    match t
    case StringType => v.Str?
    case NumberType => v.Num?
    case BooleanType => v.Bool?
    case DateType => v.Str?
  }

  /**
   * `getDefaultFieldValue`: the empty value of the field's type. For a date it
   * is today's date, the part of `now` (an ISO timestamp) before the "T".
   */
  function GetDefaultFieldValue(fieldType: Option<DataProvider.FieldType>, nowIso: string): (v: Value)
    ensures fieldType.Some? ==> FitsType(v, fieldType.value)
    ensures fieldType.None? || fieldType == Some(DataProvider.StringType) ==> v == Str("")
    ensures fieldType == Some(DataProvider.NumberType) ==> v == Num(0)
    ensures fieldType == Some(DataProvider.BooleanType) ==> v == Bool(false)
    ensures fieldType == Some(DataProvider.DateType) ==>
      v.s <= nowIso && 'T' !in v.s && (|v.s| < |nowIso| ==> nowIso[|v.s|] == 'T')
  {
    SplitHeadIsPrefix(nowIso, 'T');
    match fieldType
    case Some(StringType) => Str("")
    case Some(NumberType) => Num(0)
    case Some(BooleanType) => Bool(false)
    case Some(DateType) => Str(Split(nowIso, 'T')[0])
    case None => Str("")
  }

  /** For a timestamp `${date}T${time}` the date default is `date`. */
  lemma {:induction false} DateDefaultIsTheIsoDate(date: string, time: string)
    requires 'T' !in date
    ensures GetDefaultFieldValue(Some(DataProvider.DateType), date + "T" + time) == Str(date)
  {
    SplitAroundSeparator(date, time, 'T');
    SplitWithoutSeparator(date, 'T');
  }

  /** The editor's default values: the record's value when not nullish, else the field's default. */
  function DefaultFormValues(fields: map<string, DataProvider.ResolvedField>, record: Option<Row>, nowIso: string): (values: Row)
    ensures values.Keys == fields.Keys
    ensures forall name :: name in fields && record.Some? && !IsNullish(Get(record.value, name)) ==>
      values[name] == record.value[name]
    ensures forall name :: name in fields && (record.None? || IsNullish(Get(record.value, name))) ==>
      values[name] == GetDefaultFieldValue(Some(fields[name].fieldType), nowIso)
  {
    map name | name in fields ::
      if record.Some? && !IsNullish(Get(record.value, name)) then Get(record.value, name)
      else GetDefaultFieldValue(Some(fields[name].fieldType), nowIso)
  }

  /** A new record's form starts with every field at a value fitting its type. */
  lemma NewRecordDefaultsFit(fields: map<string, DataProvider.ResolvedField>, nowIso: string, name: string)
    requires name in fields
    ensures FitsType(DefaultFormValues(fields, None, nowIso)[name], fields[name].fieldType)
  {
  }

  // ---------------------------------------------------------------------------
  // List page

  /** The list page requests one page window and no filter. */
  function ListPageParams(page: nat, pageSize: nat): (p: DataProvider.GetManyParams)
    ensures p.pagination == Some(DataProvider.PageWindow(page, pageSize))
    ensures p.filter == map[]
  {
    DataProvider.GetManyParams(Some(DataProvider.PageWindow(page, pageSize)), map[])
  }
}
