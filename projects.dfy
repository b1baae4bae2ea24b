/**
 * Projects ("obras"): the registration form's guard chain, which the onboarding dialog and the
 * registration page share, the page's own upper-casing and duplicate-name check, and the
 * name/id lookups the other pages build from the `obras` table.
 */
module Projects {
  import opened Base
  import Text
  import Aggregates

  /** What the registration form returns when submitted. */
  datatype ProjectForm = ProjectForm(nome: string, endereco: string, orcamento: real,
                                     clienteNome: string, clienteCpf: string, inicio: Date, fim: Date)

  /** The seven fields inserted into `obras`: Nome, Endereço, Cliente_Nome, Cliente_CPF, Orçamento, Data_Início, Data_Fim. */
  datatype ProjectRecord = ProjectRecord(nome: string, endereco: string, clienteNome: string, clienteCpf: string,
                                         orcamento: real, dataInicio: Date, dataFim: Date)

  /** A stored project: the server-assigned id and the inserted fields. */
  datatype Project = Project(id: int, rec: ProjectRecord)

  datatype ProjectError = MissingField | InvalidCpf | InvalidDates | DuplicateName

  /** Python truthiness of the five checked fields: non-empty strings and a non-zero budget. */
  predicate FieldsFilled(f: ProjectForm)
  {
    |f.nome| > 0 && |f.endereco| > 0 && f.orcamento != 0.0 && |f.clienteNome| > 0 && |f.clienteCpf| > 0
  }

  /** A CPF is exactly eleven digit characters. */
  predicate ValidCpf(cpf: string)
  {
    |cpf| == 11 && Text.IsDigits(cpf)
  }

  function Payload(f: ProjectForm): ProjectRecord
  {
    ProjectRecord(f.nome, f.endereco, f.clienteNome, f.clienteCpf, f.orcamento, f.inicio, f.fim)
  }

  /** The guard chain run on submit: required fields, then the CPF, then the dates; the first failure stops it. */
  function Validate(f: ProjectForm): Result<ProjectRecord, ProjectError>
  {
    if !FieldsFilled(f) then Err(MissingField)
    else if |f.clienteCpf| != 11 || !Text.IsDigits(f.clienteCpf) then Err(InvalidCpf)
    else if f.fim < f.inicio || f.inicio == f.fim then Err(InvalidDates)
    else Ok(Payload(f))
  }

  /**
   * The form is accepted exactly when every field is filled, the CPF is valid and the end date is strictly
   * after the start date; each error names the first guard that fails; an accepted form inserts its own fields.
   */
  lemma ValidateCases(f: ProjectForm)
    ensures Validate(f).Ok? <==> FieldsFilled(f) && ValidCpf(f.clienteCpf) && f.inicio < f.fim
    ensures Validate(f) == Err(MissingField) <==> !FieldsFilled(f)
    ensures Validate(f) == Err(InvalidCpf) <==> FieldsFilled(f) && !ValidCpf(f.clienteCpf)
    ensures Validate(f) == Err(InvalidDates) <==> FieldsFilled(f) && ValidCpf(f.clienteCpf) && f.fim <= f.inicio
    ensures Validate(f) != Err(DuplicateName)
    ensures Validate(f).Ok? ==> Validate(f).value == Payload(f)
  {
  }

  /** A zero budget counts as a missing field, whatever else the form holds. */
  lemma ZeroBudgetIsMissing(f: ProjectForm)
    requires f.orcamento == 0.0
    ensures Validate(f) == Err(MissingField)
  {
  }

  /** The CPF rule on a five-digit value and an eleven-digit value. */
  lemma CpfExamples()
    ensures !ValidCpf("12345")
    ensures ValidCpf("12345678901")
  {
    assert Text.IsDigits("12345678901");
  }

  /** A project may not end on the day it starts, nor before. */
  lemma SameDayRejected(f: ProjectForm)
    requires FieldsFilled(f) && ValidCpf(f.clienteCpf) && f.fim <= f.inicio
    ensures Validate(f) == Err(InvalidDates)
  {
  }

  /**
   * The registration page: the name is upper-cased before anything else, the form goes through the guard
   * chain, and a name already in `existing` (the stored names) is refused.
   */
  function Register(f: ProjectForm, existing: seq<string>): Result<ProjectRecord, ProjectError>
  {
    match Validate(f.(nome := Text.Upper(f.nome)))
    case Err(e) => Err(e)
    case Ok(rec) => if rec.nome in existing then Err(DuplicateName) else Ok(rec)
  }

  /**
   * What the page inserts: the upper-cased name, which is its own upper case and not yet taken, and the other
   * six fields as typed; a duplicate is reported only for a form that passed every other check.
   */
  lemma RegisterCases(f: ProjectForm, existing: seq<string>)
    ensures Register(f, existing).Ok? ==>
              var rec := Register(f, existing).value;
              && rec == Payload(f.(nome := Text.Upper(f.nome)))
              && Text.Upper(rec.nome) == rec.nome
              && rec.nome !in existing
    ensures Register(f, existing) == Err(DuplicateName) <==>
              Validate(f.(nome := Text.Upper(f.nome))).Ok? && Text.Upper(f.nome) in existing
    ensures Register(f, existing).Err? && Register(f, existing) != Err(DuplicateName) ==>
              Register(f, existing) == Validate(f.(nome := Text.Upper(f.nome)))
  {
    if Register(f, existing).Ok? {
      Text.UpperIdempotent(f.nome);
    }
  }

  /** Registering through the page keeps the stored names pairwise distinct. */
  lemma RegisterKeepsNamesDistinct(f: ProjectForm, existing: seq<string>)
    requires Aggregates.Distinct(existing)
    requires Register(f, existing).Ok?
    ensures Aggregates.Distinct(existing + [Register(f, existing).value.nome])
  {
    var all := existing + [Register(f, existing).value.nome];
    forall i, j | 0 <= i < j < |all| ensures all[i] != all[j] {
      if j == |existing| {
        assert all[i] == existing[i];
      }
    }
  }

  /** The names of the stored projects, in table order. */
  function Names(ps: seq<Project>): (r: seq<string>)
    ensures |r| == |ps| && forall i | 0 <= i < |ps| :: r[i] == ps[i].rec.nome
  {
    if ps == [] then [] else Names(ps[..|ps| - 1]) + [ps[|ps| - 1].rec.nome]
  }

  /** `{row["Nome"]: row["id"] for row in data}`: a later row with the same name overrides an earlier one. */
  function NameMap(ps: seq<Project>): map<string, int>
  {
    if ps == [] then map[] else NameMap(ps[..|ps| - 1])[ps[|ps| - 1].rec.nome := ps[|ps| - 1].id]
  }

  /** A name is known exactly when some stored project has it, and it maps to the id of the last such project. */
  lemma {:induction false} NameMapLookup(ps: seq<Project>, name: string)
    ensures name in NameMap(ps) <==> name in Names(ps)
    ensures name in NameMap(ps) ==>
              exists i :: 0 <= i < |ps| && ps[i].rec.nome == name && NameMap(ps)[name] == ps[i].id
                          && forall j | i < j < |ps| :: ps[j].rec.nome != name
  {
    if ps != [] {
      var init := ps[..|ps| - 1];
      NameMapLookup(init, name);
      assert Names(ps) == Names(init) + [ps[|ps| - 1].rec.nome];
      if name in NameMap(ps) && name != ps[|ps| - 1].rec.nome {
        var i :| 0 <= i < |init| && init[i].rec.nome == name && NameMap(init)[name] == init[i].id
                 && forall j | i < j < |init| :: init[j].rec.nome != name;
        assert ps[i] == init[i];
      }
    }
  }

  /** Registering a project makes its name known, under the new id, and keeps every name known before. */
  lemma NameMapRegister(ps: seq<Project>, p: Project)
    ensures NameMap(ps + [p]) == NameMap(ps)[p.rec.nome := p.id]
    ensures NameMap(ps).Keys <= NameMap(ps + [p]).Keys
  {
    assert (ps + [p])[..|ps|] == ps;
  }

  /** Projects are only ever added, so a name known once stays known. */
  lemma NameMapExtends(ps: seq<Project>, more: seq<Project>, name: string)
    requires name in NameMap(ps)
    ensures name in NameMap(ps + more)
  {
    NameMapLookup(ps, name);
    NameMapLookup(ps + more, name);
    var i :| 0 <= i < |ps| && ps[i].rec.nome == name;
    assert (ps + more)[i] == ps[i];
    assert Names(ps + more)[i] == name;
  }
}
