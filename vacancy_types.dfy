/** Vacancy records as the backend sends and receives them. */
module VacancyTypes {
  import opened Wrappers

  /**
   * A vacancy. Salaries are whole numbers here; a missing bound and a null
   * bound are both None.
   */
  datatype VacancyDto = VacancyDto(
    id: string,
    companyId: string,
    createdById: string,
    title: string,
    description: Option<string>,
    jobType: string,
    location: Option<string>,
    salaryFrom: Option<int>,
    salaryTo: Option<int>,
    status: string,
    createdAt: string,
    updatedAt: string)

  datatype GetVacanciesParams = GetVacanciesParams(status: Option<string>, jobType: Option<string>, companyId: Option<string>)

  /** The create body; None fields are omitted from the JSON. */
  datatype CreateVacancyDto = CreateVacancyDto(
    title: string,
    description: Option<string>,
    jobType: string,
    location: Option<string>,
    salaryFrom: Option<int>,
    salaryTo: Option<int>)

  /** `Partial<CreateVacancyDto>`. */
  datatype UpdateVacancyDto = UpdateVacancyDto(
    title: Option<string>,
    description: Option<string>,
    jobType: Option<string>,
    location: Option<string>,
    salaryFrom: Option<int>,
    salaryTo: Option<int>)
}
