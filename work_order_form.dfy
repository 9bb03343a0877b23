/**
  The state both work-order pages keep (NuevoParte.jsx and EditarParte.jsx):
  the form record and the hourly rates of the chosen worker, with the pure
  updaters their handlers hand to React. Each page's class applies these
  updaters in the order its handlers do.
*/
module WorkOrderForm {
  import opened Js

  /** The hourly rates of the worker: what the worker is paid and what the
      hour costs the company. */
  datatype Rates = Rates(worker: real, company: real)

  const NoRates: Rates := Rates(0.0, 0.0)

  /** What looking a worker up by code returns: a store error, no row, or the
      worker's name and rates. */
  datatype Lookup = LookupFailed | NoEmployee | Employee(nombre: Value, worker: real, company: real)

  /** The form record and the rates, as the page holds them. */
  datatype FormState = FormState(form: Record, rates: Rates)

  /** The images of the form, an array of URLs. */
  function Images(form: Record): seq<string> {
    var v := Get(form, "imagenes");
    if v.List? then v.items else []
  }

  /** The image field holds an array, as both pages keep it. */
  predicate ImagesIsArray(form: Record) {
    Get(form, "imagenes").List?
  }

  // ---------------------------------------------------------------------
  // Costs
  // ---------------------------------------------------------------------

  /** `(hours * rate).toFixed(2)`, with NaN hours (`None`) shown as "NaN". */
  function CostText(hours: Option<real>, rate: real): (v: Value)
    ensures v.Str?
  {
    match hours
    case None => Str("NaN")
    case Some(h) => Str(ToFixed2(h * rate))
  }

  /** `parseFloat(value) || 0`: the hours typed, or 0 when they do not parse. */
  function HoursOrZero(value: string): (h: real)
    ensures ParseFloat(value).None? ==> h == 0.0
    ensures ParseFloat(value).Some? ==> h == ParseFloat(value).value
  {
    match ParseFloat(value)
    case None => 0.0
    case Some(x) => x
  }

  // ---------------------------------------------------------------------
  // Updaters
  // ---------------------------------------------------------------------

  /** `{...prev, [name]: value}` for the text of an input. */
  function SetField(form: Record, name: string, value: string): (r: Record)
    ensures Get(r, name) == Str(value)
    ensures forall k :: k != name ==> Get(r, k) == Get(form, k)
  {
    form[name := Str(value)]
  }

  /** Both costs recomputed from the hours and the rates. */
  function Recost(form: Record, hours: Option<real>, rates: Rates): (r: Record)
    ensures Get(r, "coste_trabajos") == CostText(hours, rates.worker)
    ensures Get(r, "coste_empresa") == CostText(hours, rates.company)
    ensures forall k :: k != "coste_trabajos" && k != "coste_empresa" ==> Get(r, k) == Get(form, k)
  {
    form["coste_trabajos" := CostText(hours, rates.worker)]["coste_empresa" := CostText(hours, rates.company)]
  }

  /** The worker's name and both costs emptied. */
  function ClearWorker(form: Record): (r: Record)
    ensures Get(r, "nombre_trabajador") == Str("") && Get(r, "coste_trabajos") == Str("") && Get(r, "coste_empresa") == Str("")
    ensures forall k :: k !in {"nombre_trabajador", "coste_trabajos", "coste_empresa"} ==> Get(r, k) == Get(form, k)
  {
    form["nombre_trabajador" := Str("")]["coste_trabajos" := Str("")]["coste_empresa" := Str("")]
  }

  /** The fields `handleChange` may change besides the input's own. */
  const Derived: set<string> := {"nombre_trabajador", "coste_trabajos", "coste_empresa"}

  /** The whole effect of `handleChange(name, value)` on the page state: the
      field is set; a worker code looks the worker up (store error: nothing
      more; no worker: name and costs emptied and rates zeroed; a worker: name
      and rates taken, and the costs recomputed from the hours already typed);
      new hours recompute both costs while the worker's rate is positive. The
      hours and rates read are those of the state before the change. */
  function Change(s: FormState, name: string, value: string, lookup: Lookup): FormState {
    var form := SetField(s.form, name, value);
    if name == "codigo_empleado" then
      match lookup
      case LookupFailed => FormState(form, s.rates)
      case NoEmployee => FormState(ClearWorker(form), NoRates)
      case Employee(nombre, worker, company) =>
        var named := form["nombre_trabajador" := nombre];
        var tiempo := Get(s.form, "tiempo_empleado");
        if Truthy(tiempo) then FormState(Recost(named, ParseFloat(ToString(tiempo)), Rates(worker, company)), Rates(worker, company))
        else FormState(named, Rates(worker, company))
    else if name == "tiempo_empleado" && s.rates.worker > 0.0 then
      FormState(Recost(form, Some(HoursOrZero(value)), s.rates), s.rates)
    else
      FormState(form, s.rates)
  }

  /** `{...prev, imagenes: [...prev.imagenes, url]}` */
  function AppendImage(form: Record, url: string): (r: Record)
    ensures Images(r) == Images(form) + [url] && ImagesIsArray(r)
    ensures forall k :: k != "imagenes" ==> Get(r, k) == Get(form, k)
  {
    form["imagenes" := List(Images(form) + [url])]
  }

  /** `images.filter((_, index) => index !== k)`, walking the array with the
      index still to skip counted down. */
  function WithoutIndex(images: seq<string>, k: int): (r: seq<string>)
    ensures |r| <= |images|
    decreases |images|
  {
    if images == [] then []
    else (if k == 0 then [] else [images[0]]) + WithoutIndex(images[1..], k - 1)
  }

  /** `{...prev, imagenes: prev.imagenes.filter(...)}` */
  function RemoveImage(form: Record, k: int): (r: Record)
    ensures Images(r) == WithoutIndex(Images(form), k) && ImagesIsArray(r)
    ensures forall key :: key != "imagenes" ==> Get(r, key) == Get(form, key)
  {
    form["imagenes" := List(WithoutIndex(Images(form), k))]
  }

  /** `{...prev, firma: data}` */
  function SetSignature(form: Record, data: string): (r: Record)
    ensures Get(r, "firma") == Str(data)
    ensures forall k :: k != "firma" ==> Get(r, k) == Get(form, k)
  {
    form["firma" := Str(data)]
  }

  // ---------------------------------------------------------------------
  // Properties of the hours read
  // ---------------------------------------------------------------------

  /** Whole hours typed as digits, whatever follows them but a digit or a
      point ("2 horas"), count as that number. */
  lemma HoursOfWhole(n: nat, rest: string)
    requires rest == [] || (!IsDigit(rest[0]) && rest[0] != '.')
    ensures HoursOrZero(NatString(n) + rest) == n as real
  {
    var s := NatString(n) + rest;
    assert s[0] == NatString(n)[0];
    assert TrimStart(s) == s && Unsigned(s) == (false, s);
    LeadingDigitsOfRun(NatString(n), rest);
    assert s[|NatString(n)|..] == rest;
  }

  /** Hours typed as `a.d`, followed by anything but a digit, are a plus
      d tenths, hundredths, … as the digits of `d` say. */
  lemma HoursOfDecimal(a: string, d: string, rest: string)
    requires AllDigits(a) && AllDigits(d) && (a != [] || d != [])
    requires rest == [] || !IsDigit(rest[0])
    ensures HoursOrZero(a + "." + d + rest) == DigitsValue(a) as real + DigitsValue(d) as real / (Pow10(|d|) as real)
  {
    var s := a + (['.'] + (d + rest));
    PointRegroup(a, d, rest);
    assert HoursOrZero(s) == DecimalValue(a, d) by {
      assert s[0] == (if a != [] then a[0] else '.');
      HoursUnsigned(s);
      ParseDecimalPoint(a, d, rest);
    }
    DecimalValueOf(a, d);
  }

  lemma PointRegroup(a: string, d: string, rest: string)
    ensures a + "." + d + rest == a + (['.'] + (d + rest))
  {
  }

  /** Hours starting with a digit or a point are their unsigned reading. */
  lemma HoursUnsigned(s: string)
    requires s != [] && (IsDigit(s[0]) || s[0] == '.')
    ensures HoursOrZero(s) == ParseDecimal(s).GetOr(0.0)
  {
    assert TrimStart(s) == s && Unsigned(s) == (false, s);
  }

  /** The unsigned reading of `a.d`. */
  lemma ParseDecimalPoint(a: string, d: string, rest: string)
    requires AllDigits(a) && AllDigits(d) && (a != [] || d != [])
    requires rest == [] || !IsDigit(rest[0])
    ensures ParseDecimal(a + (['.'] + (d + rest))) == Some(DecimalValue(a, d))
  {
    var tail := ['.'] + (d + rest);
    var s := a + tail;
    LeadingDigitsOfRun(a, tail);
    assert s[|a|..] == tail;
    assert tail[1..] == d + rest;
    LeadingDigitsOfRun(d, rest);
  }

  /** Leading white space is skipped. */
  lemma HoursSkipSpace(c: char, s: string)
    requires IsSpace(c)
    ensures HoursOrZero([c] + s) == HoursOrZero(s)
  {
    assert ([c] + s)[1..] == s;
  }

  /** A leading minus negates the hours. */
  lemma HoursNegated(t: string)
    requires t == [] || (!IsSpace(t[0]) && t[0] != '-' && t[0] != '+')
    ensures HoursOrZero("-" + t) == -HoursOrZero(t)
  {
    assert ("-" + t)[1..] == t;
    assert TrimStart("-" + t) == "-" + t;
    assert TrimStart(t) == t;
  }

  /** A text that starts with no digit, sign, point or white space counts
      as 0 hours. */
  lemma HoursNotANumber(s: string)
    requires s == [] || !(IsDigit(s[0]) || IsSpace(s[0]) || s[0] == '+' || s[0] == '-' || s[0] == '.')
    ensures HoursOrZero(s) == 0.0
  {
    assert TrimStart(s) == s && Unsigned(s) == (false, s);
    assert LeadingDigits(s) == [];
    assert s[0..] == s;
  }

  // ---------------------------------------------------------------------
  // Properties of the change handler
  // ---------------------------------------------------------------------

  /** Both costs are those of the hours at the rates. */
  predicate Recosted(form: Record, hours: Option<real>, rates: Rates) {
    Get(form, "coste_trabajos") == CostText(hours, rates.worker) && Get(form, "coste_empresa") == CostText(hours, rates.company)
  }

  /** Both costs are as in the other form. */
  predicate SameCosts(form: Record, other: Record) {
    Get(form, "coste_trabajos") == Get(other, "coste_trabajos") && Get(form, "coste_empresa") == Get(other, "coste_empresa")
  }

  /** The input's own field always ends up holding its text, and no field
      other than it and the worker's name and costs changes. */
  lemma ChangeFrame(s: FormState, name: string, value: string, lookup: Lookup)
    ensures Get(Change(s, name, value, lookup).form, name) == Str(value)
    ensures forall k :: k != name && k !in Derived ==> Get(Change(s, name, value, lookup).form, k) == Get(s.form, k)
  {
    var form := SetField(s.form, name, value);
    if name == "codigo_empleado" {
      match lookup
      case LookupFailed =>
      case NoEmployee =>
      case Employee(nombre, worker, company) =>
        var tiempo := Get(s.form, "tiempo_empleado");
        if Truthy(tiempo) {
          RecostNamedFrame(form, nombre, ParseFloat(ToString(tiempo)), Rates(worker, company));
        }
    }
  }

  /** Naming the worker and recosting change only derived fields. */
  lemma RecostNamedFrame(form: Record, nombre: Value, hours: Option<real>, rates: Rates)
    ensures forall k :: k !in Derived ==> Get(Recost(form["nombre_trabajador" := nombre], hours, rates), k) == Get(form, k)
  {
  }

  /** Any input other than the worker code and the hours sets exactly its
      field and nothing else. */
  lemma PlainChange(s: FormState, name: string, value: string, lookup: Lookup)
    requires name != "codigo_empleado" && name != "tiempo_empleado"
    ensures Change(s, name, value, lookup) == FormState(s.form[name := Str(value)], s.rates)
  {
  }

  /** New hours recompute both costs, counting unparsable hours as 0, when and
      only when the worker's rate is positive; the rates never change. */
  lemma HoursChange(s: FormState, value: string, lookup: Lookup)
    ensures Change(s, "tiempo_empleado", value, lookup).rates == s.rates
    ensures s.rates.worker > 0.0 ==> Recosted(Change(s, "tiempo_empleado", value, lookup).form, Some(HoursOrZero(value)), s.rates)
    ensures s.rates.worker <= 0.0 ==> SameCosts(Change(s, "tiempo_empleado", value, lookup).form, s.form)
  {
  }

  /** A failed lookup leaves everything but the code itself as it was. */
  lemma LookupFailedKeeps(s: FormState, value: string)
    ensures Change(s, "codigo_empleado", value, LookupFailed) == FormState(s.form["codigo_empleado" := Str(value)], s.rates)
  {
  }

  /** A code with no worker empties the name and both costs and zeroes the
      rates, so later hours recompute nothing. */
  lemma NoEmployeeClears(s: FormState, value: string, later: string, lookup: Lookup)
    ensures var r := Change(s, "codigo_empleado", value, NoEmployee);
      && r.rates == NoRates
      && Get(r.form, "nombre_trabajador") == Str("")
      && Get(r.form, "coste_trabajos") == Str("") && Get(r.form, "coste_empresa") == Str("")
      && Get(Change(r, "tiempo_empleado", later, lookup).form, "coste_trabajos") == Str("")
  {
    var r := Change(s, "codigo_empleado", value, NoEmployee);
    assert Get(r.form, "coste_trabajos") == Str("");
  }

  /** A worker found takes the name and rates; the costs are recomputed from
      the hours already typed, and only if some are. */
  lemma EmployeeFound(s: FormState, value: string, nombre: Value, worker: real, company: real)
    ensures Change(s, "codigo_empleado", value, Employee(nombre, worker, company)).rates == Rates(worker, company)
    ensures Get(Change(s, "codigo_empleado", value, Employee(nombre, worker, company)).form, "nombre_trabajador") == nombre
    ensures Truthy(Get(s.form, "tiempo_empleado")) ==>
      Recosted(Change(s, "codigo_empleado", value, Employee(nombre, worker, company)).form,
               ParseFloat(ToString(Get(s.form, "tiempo_empleado"))), Rates(worker, company))
    ensures !Truthy(Get(s.form, "tiempo_empleado")) ==>
      SameCosts(Change(s, "codigo_empleado", value, Employee(nombre, worker, company)).form, s.form)
  {
  }

  /** The image field stays an array through any input change. */
  lemma ChangeKeepsImages(s: FormState, name: string, value: string, lookup: Lookup)
    requires name != "imagenes" && ImagesIsArray(s.form)
    ensures ImagesIsArray(Change(s, name, value, lookup).form)
    ensures Images(Change(s, name, value, lookup).form) == Images(s.form)
  {
    ChangeFrame(s, name, value, lookup);
  }

  // ---------------------------------------------------------------------
  // Properties of the image list
  // ---------------------------------------------------------------------

  /** Removing index k removes exactly that image, keeping the others in
      order; an index outside the array removes nothing. */
  lemma {:induction false} WithoutIndexSpec(images: seq<string>, k: int)
    ensures 0 <= k < |images| ==> WithoutIndex(images, k) == images[..k] + images[k + 1..]
    ensures !(0 <= k < |images|) ==> WithoutIndex(images, k) == images
    decreases |images|
  {
    if images != [] {
      var rest := WithoutIndex(images[1..], k - 1);
      WithoutIndexSpec(images[1..], k - 1);
      if k == 0 {
        assert WithoutIndex(images, k) == rest;
        assert rest == images[1..];
      } else {
        assert WithoutIndex(images, k) == [images[0]] + rest;
        if k < |images| && 0 < k {
          assert rest == images[1..][..k - 1] + images[1..][k..];
          assert images[..k] == [images[0]] + images[1..][..k - 1];
          assert images[k + 1..] == images[1..][k..];
        } else {
          assert rest == images[1..];
          assert images == [images[0]] + images[1..];
        }
      }
    }
  }

  /** Uploading then removing the new last image gives the images back. */
  lemma RemoveUndoesAppend(form: Record, url: string)
    ensures Images(RemoveImage(AppendImage(form, url), |Images(form)|)) == Images(form)
  {
    var images := Images(form) + [url];
    WithoutIndexSpec(images, |Images(form)|);
    assert images[..|Images(form)|] == Images(form);
  }
}
