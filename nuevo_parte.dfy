/**
  The new-work-order page (NuevoParte.jsx): a form record, the worker's
  rates, a loading flag and the calls made to the store, changed by one
  method per handler. The store's answers are parameters: the result of the
  latest-number query and whether the insert fails.
*/
module NuevoParte {
  import opened Js
  import opened WorkOrderForm
  import ParteUtils

  /** A call the page makes to the store. */
  datatype StoreCall =
    | LatestNumberQuery      // the allocator's read of the latest work order
    | Insert(record: Record)

  datatype SubmitOutcome = MissingSignature | Failed | Created

  /** The calls one submit makes and how it ends. */
  datatype Submission = Submission(calls: seq<StoreCall>, outcome: SubmitOutcome)

  /** The page's inputs, each calling `handleChange` with its text. */
  const Inputs: set<string> := {
    "nombre_obra", "codigo_empleado", "nombre_trabajador", "cliente", "email_contacto", "fecha",
    "num_velas", "num_puntos_pvc", "num_montaje_aparatos", "estado", "tiempo_empleado",
    "coste_trabajos", "coste_empresa", "otros_trabajos", "notas"
  }

  /** The empty form, dated `today`. */
  function InitialForm(today: string): (f: Record)
    ensures ImagesIsArray(f) && Images(f) == []
  {
    map[
      "nombre_obra" := Str(""), "codigo_empleado" := Str(""), "nombre_trabajador" := Str(""),
      "cliente" := Str(""), "email_contacto" := Str(""), "fecha" := Str(today),
      "num_velas" := Number(0), "num_puntos_pvc" := Number(0), "num_montaje_aparatos" := Number(0),
      "otros_trabajos" := Str(""), "tiempo_empleado" := Str(""), "coste_trabajos" := Str(""),
      "coste_empresa" := Str(""), "estado" := Str("Pendiente"), "notas" := Str(""), "firma" := Str(""),
      "imagenes" := List([])
    ]
  }

  /** The record inserted: the form with the allocated number, its state
      forced to "Pendiente". */
  function NewRecord(form: Record, numero: string): (r: Record)
    ensures Get(r, "numero_parte") == Str(numero) && Get(r, "estado") == Str("Pendiente")
    ensures forall k :: k != "numero_parte" && k != "estado" ==> Get(r, k) == Get(form, k)
  {
    form["numero_parte" := Str(numero)]["estado" := Str("Pendiente")]
  }

  /** `handleSubmit`: without a signature nothing is called; otherwise a
      number is allocated from the latest work order of the year and the
      record inserted; an allocation error stops before the insert. */
  function SubmitEffect(form: Record, query: ParteUtils.LatestQuery, year: int, insertFails: bool): Submission {
    if !Truthy(Get(form, "firma")) then Submission([], MissingSignature)
    else
      match ParteUtils.GenerateParteNumber(query, year)
      case Failure(_) => Submission([LatestNumberQuery], Failed)
      case Success(numero) =>
        Submission([LatestNumberQuery, Insert(NewRecord(form, numero))], if insertFails then Failed else Created)
  }

  class NewParteForm {
    var form: Record
    var rates: Rates
    var loading: bool
    var calls: seq<StoreCall>

    predicate Valid()
      reads this
    {
      ImagesIsArray(form)
    }

    /** The page as first shown at time `now`, an ISO timestamp. */
    constructor (now: string)
      ensures form == InitialForm(DatePart(now)) && rates == NoRates
      ensures !loading && calls == [] && Valid()
    {
      form := InitialForm(DatePart(now));
      rates := NoRates;
      loading := false;
      calls := [];
    }

    /** `handleChange`: the field, then the lookup of a worker code or the
        costs of new hours, reading the rates and hours held before. */
    method HandleChange(name: string, value: string, lookup: Lookup)
      requires Valid() && name in Inputs
      modifies this
      ensures FormState(form, rates) == Change(FormState(old(form), old(rates)), name, value, lookup)
      ensures loading == old(loading) && calls == old(calls) && Valid()
    {
      var before := form;
      var tarifas := rates;
      form := SetField(form, name, value);
      if name == "codigo_empleado" {
        match lookup {
          case LookupFailed =>
          case NoEmployee =>
            form := ClearWorker(form);
            rates := NoRates;
          case Employee(nombre, worker, company) =>
            form := form["nombre_trabajador" := nombre];
            rates := Rates(worker, company);
            if Truthy(Get(before, "tiempo_empleado")) {
              form := Recost(form, ParseFloat(ToString(Get(before, "tiempo_empleado"))), rates);
            }
        }
      }
      if name == "tiempo_empleado" && tarifas.worker > 0.0 {
        form := Recost(form, Some(HoursOrZero(value)), tarifas);
      }
      ChangeKeepsImages(FormState(before, tarifas), name, value, lookup);
    }

    /** `handleImageUpload`: the URL goes at the end. */
    method HandleImageUpload(url: string)
      requires Valid()
      modifies this
      ensures form == AppendImage(old(form), url)
      ensures rates == old(rates) && loading == old(loading) && calls == old(calls) && Valid()
    {
      form := AppendImage(form, url);
    }

    /** `handleSignatureSave` */
    method HandleSignatureSave(data: string)
      requires Valid()
      modifies this
      ensures form == SetSignature(old(form), data)
      ensures rates == old(rates) && loading == old(loading) && calls == old(calls) && Valid()
    {
      form := SetSignature(form, data);
    }

    /** `handleSubmit`: loading while it runs, false again at the end. */
    method HandleSubmit(query: ParteUtils.LatestQuery, year: int, insertFails: bool) returns (outcome: SubmitOutcome)
      requires Valid()
      modifies this
      ensures var effect := SubmitEffect(old(form), query, year, insertFails);
        calls == old(calls) + effect.calls && outcome == effect.outcome
      ensures form == old(form) && rates == old(rates) && !loading && Valid()
    {
      loading := true;
      if !Truthy(Get(form, "firma")) {
        loading := false;
        return MissingSignature;
      }
      calls := calls + [LatestNumberQuery];
      var numero := ParteUtils.GenerateParteNumber(query, year);
      if numero.Failure? {
        outcome := Failed;
      } else {
        calls := calls + [Insert(NewRecord(form, numero.value))];
        outcome := if insertFails then Failed else Created;
      }
      loading := false;
    }
  }

  // ---------------------------------------------------------------------
  // Properties
  // ---------------------------------------------------------------------

  /** A new form is pending, with no counts, costs, images or signature, and
      dated with the day of the timestamp. */
  lemma InitialFormFacts(day: string, time: string)
    requires 'T' !in day
    ensures var f := InitialForm(DatePart(day + "T" + time));
      && Get(f, "fecha") == Str(day) && Get(f, "estado") == Str("Pendiente")
      && Get(f, "num_velas") == Number(0) && Get(f, "num_puntos_pvc") == Number(0)
      && Get(f, "num_montaje_aparatos") == Number(0)
      && Get(f, "coste_trabajos") == Str("") && Get(f, "coste_empresa") == Str("")
      && !Truthy(Get(f, "firma")) && Images(f) == []
  {
    DatePartOf(day, time);
  }

  /** Without a signature a submit makes no call at all, so a fresh form
      cannot be saved before it is signed. */
  lemma NoSignatureNoCalls(form: Record, query: ParteUtils.LatestQuery, year: int, insertFails: bool, today: string)
    ensures !Truthy(Get(form, "firma")) ==> SubmitEffect(form, query, year, insertFails) == Submission([], MissingSignature)
    ensures SubmitEffect(InitialForm(today), query, year, insertFails).calls == []
  {
  }

  /** A signed form is inserted once, carrying the number allocated for the
      year and the state "Pendiente" whatever the form held, every other
      field as in the form. */
  lemma SignedFormInserted(form: Record, query: ParteUtils.LatestQuery, year: int, insertFails: bool)
    requires Truthy(Get(form, "firma")) && ParteUtils.GenerateParteNumber(query, year).Success?
    ensures var numero := ParteUtils.GenerateParteNumber(query, year).value;
      var effect := SubmitEffect(form, query, year, insertFails);
      && effect.calls == [LatestNumberQuery, Insert(NewRecord(form, numero))]
      && ParteUtils.EndsWith(numero, "/" + ParteUtils.YearSuffix(year))
      && (effect.outcome == Created <==> !insertFails)
  {
  }

  /** When the number cannot be allocated (the query fails, or the latest
      number is not a string) nothing is inserted. */
  lemma AllocationFailureNoInsert(form: Record, query: ParteUtils.LatestQuery, year: int, insertFails: bool)
    requires Truthy(Get(form, "firma")) && ParteUtils.GenerateParteNumber(query, year).Failure?
    ensures SubmitEffect(form, query, year, insertFails) == Submission([LatestNumberQuery], Failed)
    ensures query.QueryError? ==> SubmitEffect(form, query, year, insertFails).calls == [LatestNumberQuery]
  {
  }
}
