/** The vacancy endpoints: request descriptors and the cache tags they provide and invalidate. */
module VacanciesApi {
  import opened Wrappers
  import opened VacancyTypes
  import opened BaseApi

  /** A cache tag of type "Vacancies": a vacancy id, or the list marker. */
  datatype Tag = Tag(id: string)

  const ListTag := Tag("LIST")

  /** The list body: `{ vacancies: VacancyDto[] }`. */
  datatype VacancyList = VacancyList(vacancies: seq<VacancyDto>)

  /** `getVacancies.query`: params are passed only when given. */
  function GetVacanciesQuery(params: Option<GetVacanciesParams>): (r: FetchArgs<(), GetVacanciesParams>)
    ensures r.url == "/vacancies" && r.httpMethod == Get && r.body == None
    ensures r.params == params
  {
    match params
    case None => FetchArgs("/vacancies", Get, None, None)
    case Some(p) => FetchArgs("/vacancies", Get, None, Some(p))
  }

  /** `getVacancies.transformResponse` */
  function ListFromResponse(res: Envelope<VacancyList>): seq<VacancyDto> {
    res.data.vacancies
  }

  function VacancyUrl(id: string): string {
    "/vacancies/" + id
  }

  function CreateVacancyQuery(body: CreateVacancyDto): FetchArgs<CreateVacancyDto, ()> {
    FetchArgs("/vacancies", Post, Some(body), None)
  }

  function UpdateVacancyQuery(id: string, body: UpdateVacancyDto): FetchArgs<UpdateVacancyDto, ()> {
    FetchArgs(VacancyUrl(id), Patch, Some(body), None)
  }

  function ArchiveVacancyQuery(id: string): FetchArgs<(), ()> {
    FetchArgs(VacancyUrl(id), Delete, None, None)
  }

  /** The id a vacancy URL names: what follows "/vacancies/". */
  lemma VacancyUrlNamesId(id: string, id': string)
    ensures VacancyUrl(id) == VacancyUrl(id') <==> id == id'
    ensures UpdateVacancyQuery(id, UpdateVacancyDto(None, None, None, None, None, None)).url == ArchiveVacancyQuery(id).url
  {
    if VacancyUrl(id) == VacancyUrl(id') {
      assert id == VacancyUrl(id)[11..] && id' == VacancyUrl(id')[11..];
    }
  }

  /** One tag per vacancy, in order. */
  function IdTags(vacancies: seq<VacancyDto>): (r: seq<Tag>)
    ensures |r| == |vacancies|
    ensures forall i :: 0 <= i < |r| ==> r[i] == Tag(vacancies[i].id)
  {
    if vacancies == [] then [] else [Tag(vacancies[0].id)] + IdTags(vacancies[1..])
  }

  /** `getVacancies.providesTags`: each vacancy's id and then "LIST"; only "LIST" without a result. */
  function ProvidesTags(result: Option<seq<VacancyDto>>): seq<Tag> {
    match result
    case None => [ListTag]
    case Some(vs) => IdTags(vs) + [ListTag]
  }

  const CreateInvalidates := [ListTag]

  const ArchiveInvalidates := [ListTag]

  function UpdateInvalidates(id: string): seq<Tag> {
    [Tag(id)]
  }

  /** A cached result is refetched when it provides one of the invalidated tags. */
  predicate Invalidated(provided: seq<Tag>, invalidated: seq<Tag>) {
    exists t :: t in provided && t in invalidated
  }

  /** A result of n vacancies provides n + 1 tags, the last of them "LIST"; no result provides just "LIST". */
  lemma {:induction false} ProvidedTagCount(result: Option<seq<VacancyDto>>)
    ensures result.Some? ==> |ProvidesTags(result)| == |result.value| + 1
    ensures result.None? ==> ProvidesTags(result) == [ListTag]
    ensures ListTag in ProvidesTags(result)
  {
    match result
    case None =>
    case Some(vs) =>
      var tags := ProvidesTags(result);
      assert tags[|tags| - 1] == ListTag;
  }

  /** The tag of id `v` is provided iff `v` is "LIST" or some vacancy in the result has id `v`. */
  lemma {:induction false} ProvidedIdTag(result: Option<seq<VacancyDto>>, v: string)
    ensures Tag(v) in ProvidesTags(result) <==>
      v == "LIST" || (result.Some? && exists i :: 0 <= i < |result.value| && result.value[i].id == v)
  {
    match result
    case None =>
    case Some(vs) =>
      var ids := IdTags(vs);
      if exists i :: 0 <= i < |vs| && vs[i].id == v {
        var i :| 0 <= i < |vs| && vs[i].id == v;
        assert (ids + [ListTag])[i] == Tag(v);
      }
      if Tag(v) in ids + [ListTag] && v != "LIST" {
        var k :| 0 <= k < |ids + [ListTag]| && (ids + [ListTag])[k] == Tag(v);
        assert k < |ids|;
        assert vs[k].id == v;
      }
  }

  /** Creating or archiving a vacancy refetches every cached list. */
  lemma CreateAndArchiveRefetchLists(result: Option<seq<VacancyDto>>)
    ensures Invalidated(ProvidesTags(result), CreateInvalidates)
    ensures Invalidated(ProvidesTags(result), ArchiveInvalidates)
  {
    ProvidedTagCount(result);
  }

  /**
   * `providesTags` receives the transformed result, `res.data.vacancies`: the list
   * query provides "LIST" and the id tag of every vacancy in the response body.
   */
  lemma ResponseProvidesTags(res: Envelope<VacancyList>, v: string)
    ensures |ProvidesTags(Some(ListFromResponse(res)))| == |res.data.vacancies| + 1
    ensures Tag(v) in ProvidesTags(Some(ListFromResponse(res))) <==>
      v == "LIST" || exists i :: 0 <= i < |res.data.vacancies| && res.data.vacancies[i].id == v
  {
    ProvidedTagCount(Some(ListFromResponse(res)));
    ProvidedIdTag(Some(ListFromResponse(res)), v);
  }

  /** Updating vacancy `v` refetches a cached list iff it holds that vacancy (or `v` is "LIST"). */
  lemma UpdateRefetchesHolders(result: Option<seq<VacancyDto>>, v: string)
    ensures Invalidated(ProvidesTags(result), UpdateInvalidates(v)) <==>
      v == "LIST" || (result.Some? && exists i :: 0 <= i < |result.value| && result.value[i].id == v)
  {
    ProvidedIdTag(result, v);
    if Invalidated(ProvidesTags(result), UpdateInvalidates(v)) {
      var t :| t in ProvidesTags(result) && t in UpdateInvalidates(v);
      assert t == Tag(v);
    }
  }
}
