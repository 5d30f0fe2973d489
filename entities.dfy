/**
 * The records the services exchange (Calorizer.Business/DTOs) and the rows the store
 * holds (Calorizer.DAL/Models). `decimal` is exact, so it is a `real`; a nullable field is
 * an `Option`. A stored row carries no `Id` field: its id is its key in the table
 * (see module Repository), and a DTO's `Id` is copied from that key.
 */
module Entities {
  import opened Wrappers
  import opened Dates

  // ---------------------------------------------------------------- DTOs

  datatype ClientDto = ClientDto(
    id: int,
    fullNameEn: string,
    fullNameAr: string,
    mobileNumber: Option<string>,
    genderId: int,
    address: Option<string>,
    dateOfBirth: DateTime,
    weight: Option<real>,
    height: Option<real>)

  datatype WeightHistoryDto = WeightHistoryDto(
    id: int,
    clientId: int,
    weight: Option<real>,
    height: Option<real>,
    createdOn: DateTime,
    createdBy: int)

  datatype BiochemicalMedicalTestDto = BiochemicalMedicalTestDto(
    id: int,
    clientId: int,
    medicalData: Option<string>,
    createdOn: DateTime,
    createdBy: int)

  datatype DrugsSupplementDto = DrugsSupplementDto(
    id: int,
    clientId: int,
    drug: Option<string>,
    createdOn: DateTime,
    createdBy: int)

  datatype MedicalHistoryDto = MedicalHistoryDto(
    id: int,
    clientId: int,
    medicalNote: Option<string>,
    createdOn: DateTime,
    createdBy: int)

  datatype LookupDto = LookupDto(id: int, nameEn: string, nameAr: string, code: Option<string>)

  // ---------------------------------------------------------------- stored rows

  datatype Client = Client(
    fullNameEn: string,
    fullNameAr: string,
    mobileNumber: Option<string>,
    genderId: int,
    address: Option<string>,
    dateOfBirth: DateTime,
    weight: Option<real>,
    height: Option<real>)

  datatype WeightHistory = WeightHistory(
    clientId: int,
    weight: Option<real>,
    height: Option<real>,
    createdBy: int,
    createdOn: DateTime)

  datatype BiochemicalMedicalTest = BiochemicalMedicalTest(
    clientId: int,
    medicalData: Option<string>,
    createdBy: int,
    createdOn: DateTime)

  datatype DrugsSupplement = DrugsSupplement(
    clientId: int,
    drug: Option<string>,
    createdBy: int,
    createdOn: DateTime)

  datatype MedicalHistory = MedicalHistory(
    clientId: int,
    medicalNote: Option<string>,
    createdBy: int,
    createdOn: DateTime)

  datatype Lookup = Lookup(nameEn: string, nameAr: string, code: Option<string>, categoryId: int)

  datatype LookupCategory = LookupCategory(nameEn: string, nameAr: string, code: int)
}
