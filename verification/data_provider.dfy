/**
 * The data-provider contract: normalising a provider definition, the query-key
 * strings under which `getMany` / `getOne` results are cached, the merged
 * filter, the `loading` flag and the guards of the three mutations.
 */
module DataProvider {
  import opened Common
  import opened Text

  datatype FieldType = StringType | NumberType | BooleanType | DateType

  /** A field as the definition gives it: every part optional (None = property absent). */
  datatype FieldDef = FieldDef(fieldType: Option<FieldType>, fieldLabel: Option<string>, valueFormatter: Option<nat>)

  /** A field after normalisation: type and label always present. */
  datatype ResolvedField = ResolvedField(fieldType: FieldType, fieldLabel: string, valueFormatter: Option<nat>)

  /**
   * A provider definition. The methods are opaque handles of type M: only
   * whether they are present matters here.
   */
  datatype Definition<M> = Definition(
    getMany: M,
    getOne: Option<M>,
    createOne: Option<M>,
    updateOne: Option<M>,
    deleteOne: Option<M>,
    fields: map<string, FieldDef>)

  datatype ResolvedProvider<M> = ResolvedProvider(
    getMany: M,
    getOne: Option<M>,
    createOne: Option<M>,
    updateOne: Option<M>,
    deleteOne: Option<M>,
    fields: map<string, ResolvedField>)

  const IdField := ResolvedField(StringType, "id", None)

  /** `{ type: "string", label: k, ...v }`: what the definition gives wins over the defaults. */
  function ResolveField(name: string, def: FieldDef): (f: ResolvedField)
    ensures f.fieldType == def.fieldType.GetOr(StringType)
    ensures f.fieldLabel == def.fieldLabel.GetOr(name)
    ensures f.valueFormatter == def.valueFormatter
  {
    ResolvedField(
      if def.fieldType.Some? then def.fieldType.value else StringType,
      if def.fieldLabel.Some? then def.fieldLabel.value else name,
      def.valueFormatter)
  }

  /** `createDataProvider`: adds the default "id" field and fills in field defaults. */
  function CreateDataProvider<M>(input: Definition<M>): (r: ResolvedProvider<M>)
    ensures "id" in r.fields
    ensures r.fields.Keys == input.fields.Keys + {"id"}
    ensures "id" !in input.fields ==> r.fields["id"] == IdField
    ensures forall k :: k in input.fields ==> r.fields[k] == ResolveField(k, input.fields[k])
    ensures r.getMany == input.getMany && r.getOne == input.getOne
    ensures r.createOne == input.createOne && r.updateOne == input.updateOne
    ensures r.deleteOne == input.deleteOne
  {
    var resolved := map k | k in input.fields :: ResolveField(k, input.fields[k]);
    ResolvedProvider(
      input.getMany, input.getOne, input.createOne, input.updateOne, input.deleteOne,
      map["id" := IdField] + resolved)
  }

  /** Every resolved field has a type and a label; an unlabelled field is labelled by its name. */
  lemma ResolvedFieldsAreLabelled<M>(input: Definition<M>, k: string)
    requires k in CreateDataProvider(input).fields
    ensures var f := CreateDataProvider(input).fields[k];
      (k in input.fields && input.fields[k].fieldLabel.Some? ==> f.fieldLabel == input.fields[k].fieldLabel.value) &&
      (k !in input.fields || input.fields[k].fieldLabel.None? ==> f.fieldLabel == k)
  {
  }

  // ---------------------------------------------------------------------------
  // getMany parameters and query keys

  datatype Pagination = Pagination(start: nat, pageSize: nat)

  /**
   * A filter, as a plain object of field constraints. Its own key is computed
   * by the filter module, which is not part of this model; it is a parameter.
   */
  type Filter = map<string, Value>

  /** `GetManyParams`: `pagination` is `Pagination | null` (None = null). */
  datatype GetManyParams = GetManyParams(pagination: Option<Pagination>, filter: Filter)

  /** The window of page `page` (counted from 0): `{ start: page * pageSize, pageSize }`. */
  function PageWindow(page: nat, pageSize: nat): Pagination {
    Pagination(page * pageSize, pageSize)
  }

  /** The row indices a window covers. */
  predicate InWindow(p: Pagination, index: nat) {
    p.start <= index < p.start + p.pageSize
  }

  /** Page p + 1 starts where page p ends. */
  lemma NextPageStartsWherePageEnds(page: nat, pageSize: nat)
    ensures PageWindow(page + 1, pageSize).start == PageWindow(page, pageSize).start + pageSize
  {
  }

  /** Windows of two different pages of the same size share no row. */
  lemma {:induction false} PageWindowsAreDisjoint(p1: nat, p2: nat, pageSize: nat, index: nat)
    requires p1 < p2
    ensures !(InWindow(PageWindow(p1, pageSize), index) && InWindow(PageWindow(p2, pageSize), index))
    decreases p2 - p1
  {
    NextPageStartsWherePageEnds(p1, pageSize);
    if p1 + 1 < p2 {
      PageWindowsAreDisjoint(p1 + 1, p2, pageSize, index);
      LaterPagesStartLater(p1 + 1, p2, pageSize);
    }
  }

  /** With a positive page size every row lies in a window: the one of page `index / pageSize`. */
  lemma EveryRowIsOnAPage(index: nat, pageSize: nat)
    requires pageSize > 0
    ensures InWindow(PageWindow(index / pageSize, pageSize), index)
  {
    var page := index / pageSize;
    assert page * pageSize + index % pageSize == index;
  }

  lemma {:induction false} LaterPagesStartLater(p1: nat, p2: nat, pageSize: nat)
    requires p1 <= p2
    ensures PageWindow(p1, pageSize).start <= PageWindow(p2, pageSize).start
    decreases p2 - p1
  {
    if p1 < p2 {
      NextPageStartsWherePageEnds(p1, pageSize);
      LaterPagesStartLater(p1 + 1, p2, pageSize);
    }
  }

  /** A property of the resolved params: absent, null, or holding a value. */
  datatype Slot<T> = Absent | NullValue | Present(value: T) {
    predicate Truthy() { Present? }
  }

  /** The resolved params that `useGetMany` keys and fetches with. */
  datatype ResolvedParams = ResolvedParams(pagination: Slot<Pagination>, filter: Option<Filter>)

  /** The template string `${start}-${pageSize}`. */
  function GetKeyFromPagination(p: Pagination): string {
    NatToString(p.start) + "-" + NatToString(p.pageSize)
  }

  /** Distinct pagination windows have distinct keys. */
  lemma {:induction false} PaginationKeyInjective(p: Pagination, q: Pagination)
    requires GetKeyFromPagination(p) == GetKeyFromPagination(q)
    ensures p == q
  {
    var a, b := NatToString(p.start), NatToString(q.start);
    var c, d := NatToString(p.pageSize), NatToString(q.pageSize);
    var k := GetKeyFromPagination(p);
    assert k == a + "-" + c;
    assert GetKeyFromPagination(q) == b + "-" + d;
    // the first '-' of the key ends the start part, since digits are not '-'
    var kq := GetKeyFromPagination(q);
    assert k[|a|] == '-' && kq[|b|] == '-';
    assert forall i :: 0 <= i < |a| ==> k[i] == a[i] && IsDigit(k[i]);
    assert forall i :: 0 <= i < |b| ==> kq[i] == b[i] && IsDigit(kq[i]);
    assert |a| == |b|;
    assert a == k[..|a|] == b;
    assert c == k[|a| + 1..] == d;
    NatToStringInjective(p.start, q.start);
    NatToStringInjective(p.pageSize, q.pageSize);
  }

  /** `getKeyForParams`: always two strings, "" standing for a missing filter or pagination. */
  function GetKeyForParams(params: ResolvedParams, filterKey: Filter -> string): (key: seq<string>)
    ensures |key| == 2
    ensures key[0] == if params.filter.Some? then filterKey(params.filter.value) else ""
    ensures params.pagination.Present? ==> key[1] == GetKeyFromPagination(params.pagination.value)
    ensures !params.pagination.Present? ==> key[1] == ""
  {
    [
      if params.filter.Some? then filterKey(params.filter.value) else "",
      if params.pagination.Truthy() then GetKeyFromPagination(params.pagination.value) else ""
    ]
  }

  /**
   * The params `useGetMany` resolves: the environment filter merged under the
   * caller's filter. The default `null` pagination is written under the key
   * `paginatuon`, so when the caller gives no params the pagination is absent.
   */
  function ResolveParams(environmentFilter: Filter, params: Option<GetManyParams>): (r: ResolvedParams)
    ensures r.filter.Some?
    ensures r.filter.value.Keys == environmentFilter.Keys + (if params.Some? then params.value.filter.Keys else {})
    ensures params.Some? ==> forall k :: k in params.value.filter ==> r.filter.value[k] == params.value.filter[k]
    ensures forall k :: k in environmentFilter && (params.None? || k !in params.value.filter) ==>
      r.filter.value[k] == environmentFilter[k]
    ensures params.None? ==> r.pagination == Absent
    ensures params.Some? ==> r.pagination == if params.value.pagination.Some? then Present(params.value.pagination.value) else NullValue
  {
    var filter := environmentFilter + (if params.Some? then params.value.filter else map[]);
    if params.None? then ResolvedParams(Absent, Some(filter))
    else ResolvedParams(
      if params.value.pagination.Some? then Present(params.value.pagination.value) else NullValue,
      Some(filter))
  }

  /** One element of a TanStack query key. */
  datatype KeyPart = KeyString(s: string) | KeyNumber(n: nat) | KeyNull

  /** The key part a provider contributes: its object key, or null without a provider. */
  function ProviderKeyPart(providerKey: Option<nat>): (part: KeyPart)
    ensures part.KeyNull? <==> providerKey.None?
    ensures providerKey.Some? ==> part == KeyNumber(providerKey.value)
  {
    if providerKey.Some? then KeyNumber(providerKey.value) else KeyNull
  }

  /** `["getMany", providerKey, ...getKeyForParams(resolvedParams)]`. */
  function GetManyQueryKey(providerKey: Option<nat>, params: ResolvedParams, filterKey: Filter -> string): (key: seq<KeyPart>)
    ensures |key| == 4 && key[0] == KeyString("getMany")
    ensures key[1] == ProviderKeyPart(providerKey)
    ensures var parts := GetKeyForParams(params, filterKey);
      key[2] == KeyString(parts[0]) && key[3] == KeyString(parts[1])
  {
    var parts := GetKeyForParams(params, filterKey);
    [KeyString("getMany"), ProviderKeyPart(providerKey), KeyString(parts[0]), KeyString(parts[1])]
  }

  /** `["getOne", providerKey, id]`. */
  function GetOneQueryKey(providerKey: Option<nat>, id: string): (key: seq<KeyPart>)
    ensures |key| == 3 && key[0] == KeyString("getOne") && key[2] == KeyString(id)
    ensures key[1] == ProviderKeyPart(providerKey)
  {
    [KeyString("getOne"), ProviderKeyPart(providerKey), KeyString(id)]
  }

  /** A `getOne` result is cached for one provider and one id: equal keys mean both are equal. */
  lemma GetOneKeysSeparateRecords(p: Option<nat>, q: Option<nat>, id1: string, id2: string)
    requires GetOneQueryKey(p, id1) == GetOneQueryKey(q, id2)
    ensures p == q && id1 == id2
  {
    assert GetOneQueryKey(p, id1)[1] == GetOneQueryKey(q, id2)[1];
    assert GetOneQueryKey(p, id1)[2] == GetOneQueryKey(q, id2)[2];
  }

  /** Two providers never share a `getMany` cache entry, whatever their params. */
  lemma {:induction false} DistinctProvidersAreCachedApart(p: Option<nat>, q: Option<nat>,
                                                           pParams: ResolvedParams, qParams: ResolvedParams,
                                                           filterKey: Filter -> string)
    requires p != q
    ensures GetManyQueryKey(p, pParams, filterKey) != GetManyQueryKey(q, qParams, filterKey)
  {
    assert GetManyQueryKey(p, pParams, filterKey)[1] != GetManyQueryKey(q, qParams, filterKey)[1];
  }

  /** Two pages of the same query are cached under different keys. */
  lemma DistinctWindowsAreCachedApart(providerKey: Option<nat>, filter: Filter, p: Pagination, q: Pagination, filterKey: Filter -> string)
    requires p != q
    ensures GetManyQueryKey(providerKey, ResolvedParams(Present(p), Some(filter)), filterKey)
         != GetManyQueryKey(providerKey, ResolvedParams(Present(q), Some(filter)), filterKey)
  {
    var kp := GetManyQueryKey(providerKey, ResolvedParams(Present(p), Some(filter)), filterKey);
    var kq := GetManyQueryKey(providerKey, ResolvedParams(Present(q), Some(filter)), filterKey);
    if kp == kq {
      assert kp[3] == kq[3];
      PaginationKeyInjective(p, q);
    }
  }

  /** The misspelled default is harmless to caching: absent and null pagination share a key. */
  lemma MissingPaginationKeysLikeNull(providerKey: Option<nat>, filter: Option<Filter>, filterKey: Filter -> string)
    ensures GetManyQueryKey(providerKey, ResolvedParams(Absent, filter), filterKey)
         == GetManyQueryKey(providerKey, ResolvedParams(NullValue, filter), filterKey)
  {
  }

  /** `loading = (isFetching && isPlaceholderData) || isLoading`. */
  function Loading(isFetching: bool, isPlaceholderData: bool, isLoading: bool): (loading: bool)
    ensures isLoading ==> loading
    ensures isFetching && isPlaceholderData ==> loading
    ensures loading ==> isLoading || isPlaceholderData
    ensures !isFetching ==> loading == isLoading
  {
    (isFetching && isPlaceholderData) || isLoading
  }

  // ---------------------------------------------------------------------------
  // Mutations

  datatype Operation = CreateOp | UpdateOp | DeleteOp

  /** What a mutation function does: throw with a message, or call the provider's method. */
  datatype MutationCall<M> = Throws(message: string) | Calls(target: M)

  function OperationName(op: Operation): string {
    match op
    case CreateOp => "createOne"
    case UpdateOp => "updateOne"
    case DeleteOp => "deleteOne"
  }

  function MethodFor<M>(provider: ResolvedProvider<M>, op: Operation): Option<M> {
    match op
    case CreateOp => provider.createOne
    case UpdateOp => provider.updateOne
    case DeleteOp => provider.deleteOne
  }

  /**
   * The `mutationFn` of `useCreateOne`, `useUpdateOne` and `useDeleteOne`:
   * no provider throws "no dataProvider available", a missing method fails the
   * invariant, otherwise the provider's method is called.
   */
  function MutationFn<M>(provider: Option<ResolvedProvider<M>>, op: Operation): (r: MutationCall<M>)
    ensures provider.None? ==> r == Throws("no dataProvider available")
    ensures provider.Some? && MethodFor(provider.value, op).None? ==> r == Throws(OperationName(op) + " not implemented")
    ensures r.Calls? <==> provider.Some? && MethodFor(provider.value, op).Some?
    ensures r.Calls? ==> MethodFor(provider.value, op) == Some(r.target)
  {
    if provider.None? then Throws("no dataProvider available")
    else match MethodFor(provider.value, op)
      case None => Throws(OperationName(op) + " not implemented")
      case Some(m) => Calls(m)
  }
}
