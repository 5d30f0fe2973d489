/**
 * ClientService (Calorizer.Business/Services/ClientService.cs): the client record and its
 * four kinds of dated sub-records over five repositories. `DateTime.Now` is the `now`
 * parameter. Whether a store write of CreateClient or UpdateClient throws is the abstract
 * StoreOutcome parameter of that write.
 */
module ClientService {
  import opened Wrappers
  import opened Dates
  import opened Entities
  import opened Responses
  import Validators
  import opened BaseService
  import opened Store
  import opened Ordering

  /** Whether a store write commits or throws. */
  datatype StoreOutcome = Commits | Throws

  // ---------------------------------------------------------------- row and DTO conversions

  /** The Client row CreateClient and UpdateClient write: the eight DTO fields copied. */
  function ClientOf(dto: ClientDto): Client
  {
    Client(dto.fullNameEn, dto.fullNameAr, dto.mobileNumber, dto.genderId, dto.address, dto.dateOfBirth, dto.weight, dto.height)
  }

  /** The ClientDto GetClientById and GetAllClients build from a stored row. */
  function ClientDtoOf(row: Row<Client>): ClientDto
  {
    var c := row.entity;
    ClientDto(row.id, c.fullNameEn, c.fullNameAr, c.mobileNumber, c.genderId, c.address, c.dateOfBirth, c.weight, c.height)
  }

  /** Storing a DTO and reading it back gives the DTO again, under the row's id; no field is lost either way. */
  lemma ClientConversionsRoundTrip(dto: ClientDto, row: Row<Client>)
    ensures ClientDtoOf(Row(dto.id, ClientOf(dto))) == dto
    ensures ClientOf(ClientDtoOf(row)) == row.entity && ClientDtoOf(row).id == row.id
  {
  }

  function WeightHistoryDtoOf(row: Row<WeightHistory>): WeightHistoryDto
  {
    var w := row.entity;
    WeightHistoryDto(row.id, w.clientId, w.weight, w.height, w.createdOn, w.createdBy)
  }

  function BiochemicalMedicalTestDtoOf(row: Row<BiochemicalMedicalTest>): BiochemicalMedicalTestDto
  {
    var b := row.entity;
    BiochemicalMedicalTestDto(row.id, b.clientId, b.medicalData, b.createdOn, b.createdBy)
  }

  function DrugsSupplementDtoOf(row: Row<DrugsSupplement>): DrugsSupplementDto
  {
    var d := row.entity;
    DrugsSupplementDto(row.id, d.clientId, d.drug, d.createdOn, d.createdBy)
  }

  function MedicalHistoryDtoOf(row: Row<MedicalHistory>): MedicalHistoryDto
  {
    var m := row.entity;
    MedicalHistoryDto(row.id, m.clientId, m.medicalNote, m.createdOn, m.createdBy)
  }

  function ClientId(d: ClientDto): int { d.id }
  function WeightHistoryCreatedOn(d: WeightHistoryDto): DateTime { d.createdOn }
  function WeightHistoryId(d: WeightHistoryDto): int { d.id }
  function BiochemicalMedicalTestCreatedOn(d: BiochemicalMedicalTestDto): DateTime { d.createdOn }
  function BiochemicalMedicalTestId(d: BiochemicalMedicalTestDto): int { d.id }
  function DrugsSupplementCreatedOn(d: DrugsSupplementDto): DateTime { d.createdOn }
  function DrugsSupplementId(d: DrugsSupplementDto): int { d.id }
  function MedicalHistoryCreatedOn(d: MedicalHistoryDto): DateTime { d.createdOn }
  function MedicalHistoryId(d: MedicalHistoryDto): int { d.id }

  // ---------------------------------------------------------------- listings

  /** `Find(belongs).Select(toDto).OrderByDescending(key)`: the shape of every Get*Async listing. */
  function Listing<T(!new), D>(repo: Repository<T>, belongs: T -> bool, toDto: Row<T> -> D, key: D -> DateTime): seq<D>
    requires repo.Valid()
    reads repo
  {
    SortNewestFirst(Project(repo.Find(belongs), toDto), key)
  }

  /**
   * A listing holds exactly the stored rows that belong, each converted once, newest first,
   * and rows created at the same moment in ascending id order.
   */
  lemma ListingContents<T(!new), D>(repo: Repository<T>, belongs: T -> bool, toDto: Row<T> -> D, key: D -> DateTime, idOf: D -> int)
    requires repo.Valid()
    requires forall x :: idOf(toDto(x)) == x.id
    ensures var r := Listing(repo, belongs, toDto, key);
      && (forall d | d in r :: idOf(d) in repo.rows && belongs(repo.rows[idOf(d)]) && d == toDto(Row(idOf(d), repo.rows[idOf(d)])))
      && (forall id | id in repo.rows && belongs(repo.rows[id]) :: toDto(Row(id, repo.rows[id])) in r)
      && (forall i, j | 0 <= i < j < |r| :: idOf(r[i]) != idOf(r[j]))
      && NewestFirst(r, key) && TiesById(r, key, idOf)
  {
    var projected := Project(repo.Find(belongs), toDto);
    var r := SortNewestFirst(projected, key);
    ProjectedFind(repo, belongs, toDto, idOf);
    assert AscendingIds(projected, idOf);
    SortIsNewestFirst(projected, key);
    SortIsStable(projected, key, idOf);
    forall d | d in r
      ensures idOf(d) in repo.rows && belongs(repo.rows[idOf(d)]) && d == toDto(Row(idOf(d), repo.rows[idOf(d)]))
    {
      assert d in multiset(projected);
    }
    forall id | id in repo.rows && belongs(repo.rows[id])
      ensures toDto(Row(id, repo.rows[id])) in r
    {
      assert toDto(Row(id, repo.rows[id])) in multiset(r);
    }
    forall i, j | 0 <= i < j < |r|
      ensures idOf(r[i]) != idOf(r[j])
    {
      // equal ids mean equal rows, hence equal keys, which stability orders strictly by id
      assert r[i] in r && r[j] in r;
    }
  }

  // ---------------------------------------------------------------- the rejection envelope

  /**
   * The envelope every write operation returns for an invalid DTO, as written:
   * `new Response<T> { BrokenRules = v.BrokenRules, StatusCode = v.StatusCode, Message = v.Message }`.
   * The parameterless constructor has already set Succeeded to true, and nothing resets it.
   */
  function RejectedAsWritten<T, U>(v: Response<U>): (r: Response<T>)
    ensures r.succeeded
    ensures r.statusCode == v.statusCode && r.brokenRules == v.brokenRules && r.message == v.message && r.data.None?
  {
    Default<T>().(brokenRules := v.brokenRules, statusCode := v.statusCode, message := v.message)
  }

  /** As written, every rejection claims success while carrying the 422 status. */
  lemma RejectedAsWrittenIsInconsistent<T, U>(v: Response<U>)
    requires !v.succeeded && Consistent(v)
    ensures var r := RejectedAsWritten<T, U>(v); r.succeeded && r.statusCode != OK && !Consistent(r)
  {
  }

  /** A client DTO with blank names is rejected by the validator, yet the envelope CreateClient returns says Succeeded. */
  lemma BlankClientReportedAsSuccess(now: DateTime)
    ensures var dto := ClientDto(0, "", "", None, 1, None, MinValue, None, None);
      var v := Validate(Some(ValidatorFactory({ClientKind}, now)), ClientValue(dto));
      && !v.succeeded && v.statusCode == BusinessRuleViolation
      && RejectedAsWritten<ClientDto, Dto>(v).succeeded
  {
    var dto := ClientDto(0, "", "", None, 1, None, MinValue, None, None);
    assert !Validators.ClientRulesHold(dto, Today(now)) by { assert Validators.IsBlank(Some(dto.fullNameEn)); }
  }

  /** The rejection envelope as intended: the validation verdict's outcome, status, message and broken rules, with no data. */
  function Rejected<T, U>(v: Response<U>): (r: Response<T>)
    ensures r.succeeded == v.succeeded
    ensures r.statusCode == v.statusCode && r.brokenRules == v.brokenRules && r.message == v.message && r.data.None?
    ensures Consistent(r) <==> Consistent(v)
  {
    Response(v.succeeded, v.message, v.statusCode, v.brokenRules, None)
  }

  // ---------------------------------------------------------------- the service

  /** A client's weight history gets a row on create exactly when a weight or a height is given. */
  predicate HasMeasurement(dto: ClientDto)
  {
    dto.weight.Some? || dto.height.Some?
  }

  /** The measurement row CreateClient, UpdateClient and AddWeightHistory write. */
  function MeasurementRow(clientId: int, weight: Option<real>, height: Option<real>, userId: int, now: DateTime): WeightHistory
  {
    WeightHistory(clientId, weight, height, userId, now)
  }

  class ClientService {
    const factory: Option<ValidatorFactory>
    const clients: Repository<Client>
    const weightHistories: Repository<WeightHistory>
    const biochemicalTests: Repository<BiochemicalMedicalTest>
    const drugsSupplements: Repository<DrugsSupplement>
    const medicalHistories: Repository<MedicalHistory>

    ghost predicate Valid()
      reads this, clients, weightHistories, biochemicalTests, drugsSupplements, medicalHistories
    {
      && clients.Valid() && weightHistories.Valid() && biochemicalTests.Valid()
      && drugsSupplements.Valid() && medicalHistories.Valid()
    }

    constructor (factory: Option<ValidatorFactory>)
      ensures Valid() && this.factory == factory
      ensures clients.rows == map[] && weightHistories.rows == map[] && biochemicalTests.rows == map[]
      ensures drugsSupplements.rows == map[] && medicalHistories.rows == map[]
      ensures fresh(clients) && fresh(weightHistories) && fresh(biochemicalTests) && fresh(drugsSupplements) && fresh(medicalHistories)
    {
      this.factory := factory;
      clients := new Repository();
      weightHistories := new Repository();
      biochemicalTests := new Repository();
      drugsSupplements := new Repository();
      medicalHistories := new Repository();
    }

    // ---------------------------------------------------------------- reads

    /** `GetClientByIdAsync(id)`: the stored client as a DTO, or null. */
    function GetClientById(id: int): (r: Option<ClientDto>)
      reads this, clients
      ensures r.None? <==> id !in clients.rows
      ensures r.Some? ==> r.value.id == id && ClientOf(r.value) == clients.rows[id]
    {
      match clients.GetById(id)
      case None => None
      case Some(c) => Some(ClientDtoOf(Row(id, c)))
    }

    /** `GetAllClientsAsync()`: every stored client as a DTO, in key order. */
    function GetAllClients(): (r: seq<ClientDto>)
      requires Valid()
      reads this, clients, weightHistories, biochemicalTests, drugsSupplements, medicalHistories
      ensures forall d | d in r :: d.id in clients.rows && ClientOf(d) == clients.rows[d.id]
      ensures forall id | id in clients.rows :: ClientDtoOf(Row(id, clients.rows[id])) in r
      ensures forall i, j | 0 <= i < j < |r| :: r[i].id < r[j].id
    {
      ProjectedFind(clients, _ => true, ClientDtoOf, ClientId);
      Project(clients.GetAll(), ClientDtoOf)
    }

    /** `GetWeightHistoriesAsync(clientId)`: the client's measurement rows, newest first. */
    function GetWeightHistories(clientId: int): (r: seq<WeightHistoryDto>)
      requires Valid()
      reads this, clients, weightHistories, biochemicalTests, drugsSupplements, medicalHistories
      ensures forall d | d in r :: d.clientId == clientId && d.id in weightHistories.rows && d == WeightHistoryDtoOf(Row(d.id, weightHistories.rows[d.id]))
      ensures forall id | id in weightHistories.rows && weightHistories.rows[id].clientId == clientId ::
        WeightHistoryDtoOf(Row(id, weightHistories.rows[id])) in r
      ensures forall i, j | 0 <= i < j < |r| :: r[i].id != r[j].id
      ensures NewestFirst(r, WeightHistoryCreatedOn) && TiesById(r, WeightHistoryCreatedOn, WeightHistoryId)
    {
      var belongs := (w: WeightHistory) => w.clientId == clientId;
      ListingContents(weightHistories, belongs, WeightHistoryDtoOf, WeightHistoryCreatedOn, WeightHistoryId);
      Listing(weightHistories, belongs, WeightHistoryDtoOf, WeightHistoryCreatedOn)
    }

    /** `GetBiochemicalTestsAsync(clientId)`: the client's biochemical tests, newest first. */
    function GetBiochemicalTests(clientId: int): (r: seq<BiochemicalMedicalTestDto>)
      requires Valid()
      reads this, clients, weightHistories, biochemicalTests, drugsSupplements, medicalHistories
      ensures forall d | d in r :: d.clientId == clientId && d.id in biochemicalTests.rows && d == BiochemicalMedicalTestDtoOf(Row(d.id, biochemicalTests.rows[d.id]))
      ensures forall id | id in biochemicalTests.rows && biochemicalTests.rows[id].clientId == clientId ::
        BiochemicalMedicalTestDtoOf(Row(id, biochemicalTests.rows[id])) in r
      ensures forall i, j | 0 <= i < j < |r| :: r[i].id != r[j].id
      ensures NewestFirst(r, BiochemicalMedicalTestCreatedOn) && TiesById(r, BiochemicalMedicalTestCreatedOn, BiochemicalMedicalTestId)
    {
      var belongs := (b: BiochemicalMedicalTest) => b.clientId == clientId;
      ListingContents(biochemicalTests, belongs, BiochemicalMedicalTestDtoOf, BiochemicalMedicalTestCreatedOn, BiochemicalMedicalTestId);
      Listing(biochemicalTests, belongs, BiochemicalMedicalTestDtoOf, BiochemicalMedicalTestCreatedOn)
    }

    /** `GetDrugsSupplementsAsync(clientId)`: the client's drugs and supplements, newest first. */
    function GetDrugsSupplements(clientId: int): (r: seq<DrugsSupplementDto>)
      requires Valid()
      reads this, clients, weightHistories, biochemicalTests, drugsSupplements, medicalHistories
      ensures forall d | d in r :: d.clientId == clientId && d.id in drugsSupplements.rows && d == DrugsSupplementDtoOf(Row(d.id, drugsSupplements.rows[d.id]))
      ensures forall id | id in drugsSupplements.rows && drugsSupplements.rows[id].clientId == clientId ::
        DrugsSupplementDtoOf(Row(id, drugsSupplements.rows[id])) in r
      ensures forall i, j | 0 <= i < j < |r| :: r[i].id != r[j].id
      ensures NewestFirst(r, DrugsSupplementCreatedOn) && TiesById(r, DrugsSupplementCreatedOn, DrugsSupplementId)
    {
      var belongs := (d: DrugsSupplement) => d.clientId == clientId;
      ListingContents(drugsSupplements, belongs, DrugsSupplementDtoOf, DrugsSupplementCreatedOn, DrugsSupplementId);
      Listing(drugsSupplements, belongs, DrugsSupplementDtoOf, DrugsSupplementCreatedOn)
    }

    /** `GetMedicalHistoriesAsync(clientId)`: the client's medical notes, newest first. */
    function GetMedicalHistories(clientId: int): (r: seq<MedicalHistoryDto>)
      requires Valid()
      reads this, clients, weightHistories, biochemicalTests, drugsSupplements, medicalHistories
      ensures forall d | d in r :: d.clientId == clientId && d.id in medicalHistories.rows && d == MedicalHistoryDtoOf(Row(d.id, medicalHistories.rows[d.id]))
      ensures forall id | id in medicalHistories.rows && medicalHistories.rows[id].clientId == clientId ::
        MedicalHistoryDtoOf(Row(id, medicalHistories.rows[id])) in r
      ensures forall i, j | 0 <= i < j < |r| :: r[i].id != r[j].id
      ensures NewestFirst(r, MedicalHistoryCreatedOn) && TiesById(r, MedicalHistoryCreatedOn, MedicalHistoryId)
    {
      var belongs := (m: MedicalHistory) => m.clientId == clientId;
      ListingContents(medicalHistories, belongs, MedicalHistoryDtoOf, MedicalHistoryCreatedOn, MedicalHistoryId);
      Listing(medicalHistories, belongs, MedicalHistoryDtoOf, MedicalHistoryCreatedOn)
    }

    // ---------------------------------------------------------------- clients

    /**
     * `CreateClientAsync(dto, userId)`: validates, writes the client row under a fresh id, then
     * a measurement row for that id when a weight or height is given, and returns the DTO
     * with its new id. A throwing write ends in "ErrorCreatingClient" and keeps the writes
     * that committed before it.
     */
    method CreateClient(dto: ClientDto, userId: int, now: DateTime, clientWrite: StoreOutcome, historyWrite: StoreOutcome)
      returns (r: Response<ClientDto>)
      requires Valid()
      modifies clients, weightHistories
      ensures Valid()
      ensures var v := Validate(factory, ClientValue(dto));
        !v.succeeded ==> r == Rejected(v) && unchanged(clients, weightHistories)
      ensures var v := Validate(factory, ClientValue(dto));
        v.succeeded && clientWrite == Throws ==> r == Error("ErrorCreatingClient") && unchanged(clients, weightHistories)
      ensures var v := Validate(factory, ClientValue(dto));
        v.succeeded && clientWrite == Commits ==>
          && clients.rows == old(clients.rows)[old(clients.nextId) := ClientOf(dto)]
          && clients.nextId == old(clients.nextId) + 1
          && (if HasMeasurement(dto) && historyWrite == Commits then
                && weightHistories.rows == old(weightHistories.rows)[old(weightHistories.nextId) :=
                     MeasurementRow(old(clients.nextId), dto.weight, dto.height, userId, now)]
                && weightHistories.nextId == old(weightHistories.nextId) + 1
              else unchanged(weightHistories))
          && r == (if HasMeasurement(dto) && historyWrite == Throws then Error("ErrorCreatingClient")
                   else OfData(dto.(id := old(clients.nextId))))
    {
      var validModel := Validate(factory, ClientValue(dto));
      if !validModel.succeeded {
        return Rejected(validModel);
      }
      if clientWrite == Throws {
        return Error("ErrorCreatingClient");
      }
      var id := clients.Add(ClientOf(dto));
      if HasMeasurement(dto) {
        if historyWrite == Throws {
          return Error("ErrorCreatingClient");
        }
        var _ := weightHistories.Add(MeasurementRow(id, dto.weight, dto.height, userId, now));
      }
      r := OfData(dto.(id := id));
    }

    /** The stored weight or height differs from the DTO's; a null equals only a null. */
    predicate MeasurementChanged(stored: Client, dto: ClientDto)
    {
      stored.weight != dto.weight || stored.height != dto.height
    }

    /**
     * `UpdateClientAsync(dto, userId)`: validates, overwrites the eight fields of the stored
     * client, then writes a measurement row when the weight or height changed, and returns
     * the DTO. An unknown id ends in "ClientNotFound"; a throwing write in "ErrorUpdatingClient",
     * keeping the writes that committed before it.
     */
    method UpdateClient(dto: ClientDto, userId: int, now: DateTime, clientWrite: StoreOutcome, historyWrite: StoreOutcome)
      returns (r: Response<ClientDto>)
      requires Valid()
      modifies clients, weightHistories
      ensures Valid()
      ensures var v := Validate(factory, ClientValue(dto));
        !v.succeeded ==> r == Rejected(v) && unchanged(clients, weightHistories)
      ensures var v := Validate(factory, ClientValue(dto));
        v.succeeded && dto.id !in old(clients.rows) ==> r == Error("ClientNotFound") && unchanged(clients, weightHistories)
      ensures var v := Validate(factory, ClientValue(dto));
        v.succeeded && dto.id in old(clients.rows) && clientWrite == Throws ==>
          r == Error("ErrorUpdatingClient") && unchanged(clients, weightHistories)
      ensures var v := Validate(factory, ClientValue(dto));
        v.succeeded && dto.id in old(clients.rows) && clientWrite == Commits ==>
          var changed := MeasurementChanged(old(clients.rows[dto.id]), dto);
          && clients.rows == old(clients.rows)[dto.id := ClientOf(dto)]
          && clients.nextId == old(clients.nextId)
          && (if changed && historyWrite == Commits then
                && weightHistories.rows == old(weightHistories.rows)[old(weightHistories.nextId) :=
                     MeasurementRow(dto.id, dto.weight, dto.height, userId, now)]
                && weightHistories.nextId == old(weightHistories.nextId) + 1
              else unchanged(weightHistories))
          && r == (if changed && historyWrite == Throws then Error("ErrorUpdatingClient") else OfData(dto))
    {
      var validModel := Validate(factory, ClientValue(dto));
      if !validModel.succeeded {
        return Rejected(validModel);
      }
      var client := clients.GetById(dto.id);
      if client.None? {
        return Error("ClientNotFound");
      }
      var changed := MeasurementChanged(client.value, dto);
      if clientWrite == Throws {
        return Error("ErrorUpdatingClient");
      }
      var _ := clients.Update(dto.id, ClientOf(dto));
      if changed {
        if historyWrite == Throws {
          return Error("ErrorUpdatingClient");
        }
        var _ := weightHistories.Add(MeasurementRow(dto.id, dto.weight, dto.height, userId, now));
      }
      r := OfData(dto);
    }

    /** `DeleteClientAsync(id)`: the repository delete. */
    method DeleteClient(id: int)
      requires Valid()
      modifies clients
      ensures Valid()
      ensures clients.rows == old(clients.rows) - {id} && clients.nextId == old(clients.nextId)
    {
      clients.Delete(id);
    }

    // ---------------------------------------------------------------- sub-records

    /**
     * `AddWeightHistoryAsync(clientId, dto, userId)`: validates, writes a measurement row under
     * `clientId` (the DTO's own ClientId is ignored), copies the measurements onto the client
     * when it exists, and returns the client's full measurement listing.
     */
    method AddWeightHistory(clientId: int, dto: WeightHistoryDto, userId: int, now: DateTime)
      returns (r: Response<seq<WeightHistoryDto>>)
      requires Valid()
      modifies clients, weightHistories
      ensures Valid()
      ensures var v := Validate(factory, WeightHistoryValue(dto));
        !v.succeeded ==> r == Rejected(v) && unchanged(clients, weightHistories)
      ensures var v := Validate(factory, WeightHistoryValue(dto));
        v.succeeded ==>
          var row := MeasurementRow(clientId, dto.weight, dto.height, userId, now);
          && weightHistories.rows == old(weightHistories.rows)[old(weightHistories.nextId) := row]
          && weightHistories.nextId == old(weightHistories.nextId) + 1
          && clients.rows == (if clientId in old(clients.rows)
                              then old(clients.rows)[clientId := old(clients.rows[clientId]).(weight := dto.weight, height := dto.height)]
                              else old(clients.rows))
          && clients.nextId == old(clients.nextId)
          && r == OfData(GetWeightHistories(clientId))
          && WeightHistoryDtoOf(Row(old(weightHistories.nextId), row)) in r.data.value
    {
      var validModel := Validate(factory, WeightHistoryValue(dto));
      if !validModel.succeeded {
        return Rejected(validModel);
      }
      var row := MeasurementRow(clientId, dto.weight, dto.height, userId, now);
      var id := weightHistories.Add(row);
      var client := clients.GetById(clientId);
      if client.Some? {
        var _ := clients.Update(clientId, client.value.(weight := dto.weight, height := dto.height));
      }
      assert id in weightHistories.rows && weightHistories.rows[id] == row && row.clientId == clientId;
      var histories := GetWeightHistories(clientId);
      assert WeightHistoryDtoOf(Row(id, weightHistories.rows[id])) in histories;
      r := OfData(histories);
    }

    /** `DeleteWeightHistoryAsync(id)`: the repository delete. */
    method DeleteWeightHistory(id: int)
      requires Valid()
      modifies weightHistories
      ensures Valid()
      ensures weightHistories.rows == old(weightHistories.rows) - {id} && weightHistories.nextId == old(weightHistories.nextId)
    {
      weightHistories.Delete(id);
    }

    /** `AddBiochemicalTestAsync(clientId, dto, userId)`: validates, writes the test under `clientId`, returns the client's tests. */
    method AddBiochemicalTest(clientId: int, dto: BiochemicalMedicalTestDto, userId: int, now: DateTime)
      returns (r: Response<seq<BiochemicalMedicalTestDto>>)
      requires Valid()
      modifies biochemicalTests
      ensures Valid()
      ensures var v := Validate(factory, BiochemicalMedicalTestValue(dto));
        !v.succeeded ==> r == Rejected(v) && unchanged(biochemicalTests)
      ensures var v := Validate(factory, BiochemicalMedicalTestValue(dto));
        v.succeeded ==>
          var row := BiochemicalMedicalTest(clientId, dto.medicalData, userId, now);
          && biochemicalTests.rows == old(biochemicalTests.rows)[old(biochemicalTests.nextId) := row]
          && biochemicalTests.nextId == old(biochemicalTests.nextId) + 1
          && r == OfData(GetBiochemicalTests(clientId))
          && BiochemicalMedicalTestDtoOf(Row(old(biochemicalTests.nextId), row)) in r.data.value
    {
      var validModel := Validate(factory, BiochemicalMedicalTestValue(dto));
      if !validModel.succeeded {
        return Rejected(validModel);
      }
      var _ := biochemicalTests.Add(BiochemicalMedicalTest(clientId, dto.medicalData, userId, now));
      var tests := GetBiochemicalTests(clientId);
      r := OfData(tests);
    }

    /** `DeleteBiochemicalTestAsync(id)`: the repository delete. */
    method DeleteBiochemicalTest(id: int)
      requires Valid()
      modifies biochemicalTests
      ensures Valid()
      ensures biochemicalTests.rows == old(biochemicalTests.rows) - {id} && biochemicalTests.nextId == old(biochemicalTests.nextId)
    {
      biochemicalTests.Delete(id);
    }

    /** `AddDrugsSupplementAsync(clientId, dto, userId)`: validates, writes the entry under `clientId`, returns the client's entries. */
    method AddDrugsSupplement(clientId: int, dto: DrugsSupplementDto, userId: int, now: DateTime)
      returns (r: Response<seq<DrugsSupplementDto>>)
      requires Valid()
      modifies drugsSupplements
      ensures Valid()
      ensures var v := Validate(factory, DrugsSupplementValue(dto));
        !v.succeeded ==> r == Rejected(v) && unchanged(drugsSupplements)
      ensures var v := Validate(factory, DrugsSupplementValue(dto));
        v.succeeded ==>
          var row := DrugsSupplement(clientId, dto.drug, userId, now);
          && drugsSupplements.rows == old(drugsSupplements.rows)[old(drugsSupplements.nextId) := row]
          && drugsSupplements.nextId == old(drugsSupplements.nextId) + 1
          && r == OfData(GetDrugsSupplements(clientId))
          && DrugsSupplementDtoOf(Row(old(drugsSupplements.nextId), row)) in r.data.value
    {
      var validModel := Validate(factory, DrugsSupplementValue(dto));
      if !validModel.succeeded {
        return Rejected(validModel);
      }
      var _ := drugsSupplements.Add(DrugsSupplement(clientId, dto.drug, userId, now));
      var drugs := GetDrugsSupplements(clientId);
      r := OfData(drugs);
    }

    /** `DeleteDrugsSupplementAsync(id)`: the repository delete. */
    method DeleteDrugsSupplement(id: int)
      requires Valid()
      modifies drugsSupplements
      ensures Valid()
      ensures drugsSupplements.rows == old(drugsSupplements.rows) - {id} && drugsSupplements.nextId == old(drugsSupplements.nextId)
    {
      drugsSupplements.Delete(id);
    }

    /** `AddMedicalHistoryAsync(clientId, dto, userId)`: validates, writes the note under `clientId`, returns the client's notes. */
    method AddMedicalHistory(clientId: int, dto: MedicalHistoryDto, userId: int, now: DateTime)
      returns (r: Response<seq<MedicalHistoryDto>>)
      requires Valid()
      modifies medicalHistories
      ensures Valid()
      ensures var v := Validate(factory, MedicalHistoryValue(dto));
        !v.succeeded ==> r == Rejected(v) && unchanged(medicalHistories)
      ensures var v := Validate(factory, MedicalHistoryValue(dto));
        v.succeeded ==>
          var row := MedicalHistory(clientId, dto.medicalNote, userId, now);
          && medicalHistories.rows == old(medicalHistories.rows)[old(medicalHistories.nextId) := row]
          && medicalHistories.nextId == old(medicalHistories.nextId) + 1
          && r == OfData(GetMedicalHistories(clientId))
          && MedicalHistoryDtoOf(Row(old(medicalHistories.nextId), row)) in r.data.value
    {
      var validModel := Validate(factory, MedicalHistoryValue(dto));
      if !validModel.succeeded {
        return Rejected(validModel);
      }
      var _ := medicalHistories.Add(MedicalHistory(clientId, dto.medicalNote, userId, now));
      var histories := GetMedicalHistories(clientId);
      r := OfData(histories);
    }

    /** `DeleteMedicalHistoryAsync(id)`: the repository delete. */
    method DeleteMedicalHistory(id: int)
      requires Valid()
      modifies medicalHistories
      ensures Valid()
      ensures medicalHistories.rows == old(medicalHistories.rows) - {id} && medicalHistories.nextId == old(medicalHistories.nextId)
    {
      medicalHistories.Delete(id);
    }
  }
}
