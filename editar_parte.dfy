/**
  The edit page (EditarParte.jsx): the work order `id` from the route, the
  form record loaded from the store, the worker's rates, a loading flag and
  the updates sent to the store, changed by one method per handler. The
  store's answers are parameters: the loaded row (or nothing when the load
  fails) and whether the update fails.
*/
module EditarParte {
  import opened Js
  import opened WorkOrderForm

  /** An update of the work order with the given id to the given record. */
  datatype StoreCall = Update(id: string, record: Record)

  datatype SubmitOutcome = MissingSignature | Failed | Updated

  datatype Submission = Submission(calls: seq<StoreCall>, outcome: SubmitOutcome)

  /** The page's inputs, each calling `handleChange` with its text. */
  const Inputs: set<string> := {
    "nombre_obra", "codigo_empleado", "nombre_trabajador", "email_contacto", "fecha",
    "num_velas", "num_puntos_pvc", "num_montaje_aparatos", "tiempo_empleado",
    "coste_trabajos", "coste_empresa", "estado", "otros_trabajos", "notas"
  }

  /** The form shown until the work order has loaded. */
  const BlankForm: Record := map[
    "nombre_obra" := Str(""), "codigo_empleado" := Str(""), "nombre_trabajador" := Str(""),
    "email_contacto" := Str(""), "fecha" := Str(""),
    "num_velas" := Number(0), "num_puntos_pvc" := Number(0), "num_montaje_aparatos" := Number(0),
    "otros_trabajos" := Str(""), "tiempo_empleado" := Str(""), "coste_trabajos" := Str(""),
    "coste_empresa" := Str(""), "estado" := Str("Pendiente"), "notas" := Str(""), "firma" := Str(""),
    "imagenes" := List([])
  ]

  /** The stored image column holds an array or nothing. */
  predicate ImagesColumn(data: Record) {
    Get(data, "imagenes").List? || !Truthy(Get(data, "imagenes"))
  }

  /** `fetchParte`'s normalisation of the loaded row: the date cut at its
      'T', no images as an empty array. A date that is not a string makes
      `split` throw, and the form is left as it was (None). */
  function Normalize(data: Record): Option<Record> {
    var fecha := Get(data, "fecha");
    if !fecha.Str? then None
    else Some(data["fecha" := Str(DatePart(fecha.s))]["imagenes" := Or(Get(data, "imagenes"), List([]))])
  }

  /** `handleSubmit`: without a signature nothing is sent; otherwise the whole
      form is sent as the update of the work order. */
  function SubmitEffect(id: string, form: Record, updateFails: bool): Submission {
    if !Truthy(Get(form, "firma")) then Submission([], MissingSignature)
    else Submission([Update(id, form)], if updateFails then Failed else Updated)
  }

  class EditParteForm {
    const id: string
    var form: Record
    var rates: Rates
    var loading: bool
    var calls: seq<StoreCall>

    predicate Valid()
      reads this
    {
      ImagesIsArray(form)
    }

    constructor (id: string)
      ensures this.id == id && form == BlankForm && rates == NoRates
      ensures !loading && calls == [] && Valid()
    {
      this.id := id;
      form := BlankForm;
      rates := NoRates;
      loading := false;
      calls := [];
    }

    /** `fetchParte`: the loaded row, normalised, replaces the form; a failed
        load (None) or a row whose normalisation throws changes nothing. */
    method Load(fetched: Option<Record>)
      requires Valid() && (fetched.Some? ==> ImagesColumn(fetched.value))
      modifies this
      ensures fetched.Some? && Normalize(fetched.value).Some? ==> form == Normalize(fetched.value).value
      ensures fetched.None? || Normalize(fetched.value).None? ==> form == old(form)
      ensures rates == old(rates) && loading == old(loading) && calls == old(calls) && Valid()
    {
      if fetched.Some? {
        var normalized := Normalize(fetched.value);
        if normalized.Some? {
          form := normalized.value;
        }
      }
    }

    /** `handleChange`, as on the new-work-order page. */
    method HandleChange(name: string, value: string, lookup: Lookup)
      requires Valid() && name in Inputs
      modifies this
      ensures FormState(form, rates) == Change(FormState(old(form), old(rates)), name, value, lookup)
      ensures loading == old(loading) && calls == old(calls) && Valid()
    {
      var before := form;
      var tarifas := rates;
      form := SetField(form, name, value);
      if name == "codigo_empleado" {
        match lookup {
          case LookupFailed =>
          case NoEmployee =>
            form := ClearWorker(form);
            rates := NoRates;
          case Employee(nombre, worker, company) =>
            form := form["nombre_trabajador" := nombre];
            rates := Rates(worker, company);
            if Truthy(Get(before, "tiempo_empleado")) {
              form := Recost(form, ParseFloat(ToString(Get(before, "tiempo_empleado"))), rates);
            }
        }
      }
      if name == "tiempo_empleado" && tarifas.worker > 0.0 {
        form := Recost(form, Some(HoursOrZero(value)), tarifas);
      }
      ChangeKeepsImages(FormState(before, tarifas), name, value, lookup);
    }

    /** `handleImageUpload` */
    method HandleImageUpload(url: string)
      requires Valid()
      modifies this
      ensures form == AppendImage(old(form), url)
      ensures rates == old(rates) && loading == old(loading) && calls == old(calls) && Valid()
    {
      form := AppendImage(form, url);
    }

    /** `handleRemoveImage`: drops the image at the index, if any. */
    method HandleRemoveImage(index: int)
      requires Valid()
      modifies this
      ensures form == RemoveImage(old(form), index)
      ensures rates == old(rates) && loading == old(loading) && calls == old(calls) && Valid()
    {
      form := RemoveImage(form, index);
    }

    /** `handleSignatureSave` */
    method HandleSignatureSave(data: string)
      requires Valid()
      modifies this
      ensures form == SetSignature(old(form), data)
      ensures rates == old(rates) && loading == old(loading) && calls == old(calls) && Valid()
    {
      form := SetSignature(form, data);
    }

    /** `handleSubmit`: loading while it runs, false again at the end. */
    method HandleSubmit(updateFails: bool) returns (outcome: SubmitOutcome)
      requires Valid()
      modifies this
      ensures calls == old(calls) + SubmitEffect(id, old(form), updateFails).calls
      ensures outcome == SubmitEffect(id, old(form), updateFails).outcome
      ensures form == old(form) && rates == old(rates) && !loading && Valid()
    {
      loading := true;
      if !Truthy(Get(form, "firma")) {
        loading := false;
        return MissingSignature;
      }
      calls := calls + [Update(id, form)];
      outcome := if updateFails then Failed else Updated;
      loading := false;
    }
  }

  // ---------------------------------------------------------------------
  // Properties
  // ---------------------------------------------------------------------

  /** A loaded row keeps every field but the date, cut to its day, and the
      images, an empty array when the row has none. */
  lemma NormalizeFields(data: Record, day: string, time: string)
    requires Get(data, "fecha") == Str(day + "T" + time) && 'T' !in day
    ensures Normalize(data).Some?
    ensures Get(Normalize(data).value, "fecha") == Str(day)
    ensures Truthy(Get(data, "imagenes")) ==> Get(Normalize(data).value, "imagenes") == Get(data, "imagenes")
    ensures !Truthy(Get(data, "imagenes")) ==> Get(Normalize(data).value, "imagenes") == List([])
    ensures forall k :: k != "fecha" && k != "imagenes" ==> Get(Normalize(data).value, k) == Get(data, k)
  {
    DatePartOf(day, time);
  }

  /** A date already without a time is kept as it is; a row whose date is not
      a string is not loaded. */
  lemma NormalizeDate(data: Record)
    ensures Get(data, "fecha").Str? && 'T' !in Get(data, "fecha").s ==>
      Normalize(data).Some? && Get(Normalize(data).value, "fecha") == Get(data, "fecha")
    ensures !Get(data, "fecha").Str? ==> Normalize(data).None?
  {
  }

  /** The loaded form always holds its images as an array. */
  lemma NormalizeImages(data: Record)
    requires ImagesColumn(data) && Normalize(data).Some?
    ensures ImagesIsArray(Normalize(data).value)
  {
  }

  /** Without a signature nothing is sent; with one, the whole form is sent
      once, as the update of this work order. */
  lemma SubmitSends(id: string, form: Record, updateFails: bool)
    ensures !Truthy(Get(form, "firma")) ==> SubmitEffect(id, form, updateFails) == Submission([], MissingSignature)
    ensures Truthy(Get(form, "firma")) ==> SubmitEffect(id, form, updateFails).calls == [Update(id, form)]
    ensures SubmitEffect(id, form, updateFails).outcome == Updated <==> Truthy(Get(form, "firma")) && !updateFails
  {
  }
}
