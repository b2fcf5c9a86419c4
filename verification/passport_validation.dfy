/**
 * The `validatePassport` rule set run on create and on update. Every failing
 * validator adds one entry, in rule order, so all violated fields are reported;
 * the `trim` sanitizers rewrite the accepted body. Dates and numbers arrive
 * already parsed: `None` stands for a value that is missing or not ISO 8601 /
 * not a float.
 */
module PassportValidation {
  import opened Wrappers
  import opened Text
  import opened Http
  import opened Dates
  import opened Passports

  datatype DetailsInput = DetailsInput(
    brand: Option<string>,
    lotNumber: Option<string>,
    implantDate: Option<Date>,
    position: Option<string>,
    diameter: Option<real>,
    length: Option<real>,
    notes: Option<string>)

  /** A request body; fields outside the schema are not represented. */
  datatype PassportInput = PassportInput(
    patientName: Option<string>,
    dateOfBirth: Option<Date>,
    implantType: Option<string>,
    details: Option<DetailsInput>,
    status: Option<string>,
    dentistId: Option<UserId>,
    patientId: Option<UserId>,
    pdfUrl: Option<string>)

  /** An accepted body after sanitizing: names trimmed, the type and status resolved. */
  datatype Payload = Payload(
    patientName: string,
    dateOfBirth: Date,
    implantType: ImplantType,
    details: ImplantDetails,
    status: Option<Status>,
    dentistId: Option<UserId>,
    patientId: Option<UserId>,
    pdfUrl: Option<string>)

  const MinDiameter: real := 0.1
  const MinLength: real := 0.5

  /** A field after `trim()`; an absent field reads as empty. */
  function Trimmed(v: Option<string>): string {
    Trim(v.GetOr(""))
  }

  /** One validator of the rule set applied to the body: its field path, whether it passed, its message. */
  datatype Rule = Rule(path: string, ok: bool, msg: string)

  /** The validators on the details object's fields, in order. */
  function DetailRules(d: DetailsInput): seq<Rule> {
    [ Rule("implant_details.brand", Trimmed(d.brand) != "", "Inserisci la marca dell'impianto"),
      Rule("implant_details.lot_number", Trimmed(d.lotNumber) != "", "Inserisci il numero di lotto"),
      Rule("implant_details.implant_date", d.implantDate.Some?, "Inserisci una data di impianto valida"),
      Rule("implant_details.position", Trimmed(d.position) != "", "Inserisci la posizione dell'impianto"),
      Rule("implant_details.diameter", d.diameter.Some? && d.diameter.value >= MinDiameter,
           "Inserisci un diametro valido (minimo 0.1 mm)"),
      Rule("implant_details.length", d.length.Some? && d.length.value >= MinLength,
           "Inserisci una lunghezza valida (minimo 0.5 mm)") ]
  }

  /** The top-level validators: `implant_type` has two (`notEmpty`, `isIn`), and so has `implant_details` (`notEmpty`, `isObject`). */
  function TopRules(b: PassportInput): seq<Rule> {
    var t := Trimmed(b.implantType);
    [ Rule("patient_name", Trimmed(b.patientName) != "", "Inserisci il nome del paziente"),
      Rule("date_of_birth", b.dateOfBirth.Some?, "Inserisci una data di nascita valida"),
      Rule("implant_type", t != "", "Inserisci il tipo di impianto"),
      Rule("implant_type", ParseType(t).Some?, "Tipo di impianto non valido"),
      Rule("implant_details", b.details.Some?, "Inserisci i dettagli dell'impianto"),
      Rule("implant_details", b.details.Some?, "Formato dettagli impianto non valido") ]
  }

  /** Every validator of `validatePassport`, in order; the nested ones run only when `implant_details` exists. */
  function Rules(b: PassportInput): seq<Rule> {
    TopRules(b)
    + (if b.details.Some? then DetailRules(b.details.value) else [])
    + [StatusRule(b)]
  }

  function StatusRule(b: PassportInput): Rule {
    Rule("status", StatusOk(b), "Stato non valido")
  }

  predicate AllPass(rules: seq<Rule>) {
    forall i | 0 <= i < |rules| :: rules[i].ok
  }

  /** `errors.array()`: one entry per failing validator, in order. */
  function Report(rules: seq<Rule>): (errs: seq<FieldError>)
    ensures |errs| <= |rules|
  {
    if |rules| == 0 then []
    else
      var rest := Report(rules[1..]);
      if rules[0].ok then rest else [FieldError(rules[0].path, rules[0].msg)] + rest
  }

  /** An entry is reported exactly when some validator with that path and message failed. */
  lemma {:induction false} ReportExact(rules: seq<Rule>, e: FieldError)
    ensures e in Report(rules) <==> exists i | 0 <= i < |rules| :: rules[i] == Rule(e.path, false, e.msg)
  {
    if |rules| > 0 {
      ReportExact(rules[1..], e);
      if e in Report(rules[1..]) {
        var i :| 0 <= i < |rules[1..]| && rules[1..][i] == Rule(e.path, false, e.msg);
        assert rules[i + 1] == Rule(e.path, false, e.msg);
      }
      if exists i | 0 <= i < |rules| :: rules[i] == Rule(e.path, false, e.msg) {
        var i :| 0 <= i < |rules| && rules[i] == Rule(e.path, false, e.msg);
        if i > 0 {
          assert rules[1..][i - 1] == rules[i];
        }
      }
    }
  }

  /** Nothing is reported exactly when every validator passed. */
  lemma {:induction false} ReportEmpty(rules: seq<Rule>)
    ensures Report(rules) == [] <==> AllPass(rules)
  {
    if |rules| > 0 {
      ReportEmpty(rules[1..]);
      assert forall i | 1 <= i < |rules| :: rules[i] == rules[1..][i - 1];
    }
  }

  /** The top-level fields are acceptable: a non-blank name, a birth date, a known type, a details object. */
  predicate TopOk(b: PassportInput) {
    && Trimmed(b.patientName) != ""
    && b.dateOfBirth.Some?
    && ParseType(Trimmed(b.implantType)).Some?
    && b.details.Some?
  }

  /** The details are acceptable: non-blank texts, a date, and a diameter and length at their minimums or above. */
  predicate DetailsOk(d: DetailsInput) {
    && Trimmed(d.brand) != ""
    && Trimmed(d.lotNumber) != ""
    && d.implantDate.Some?
    && Trimmed(d.position) != ""
    && d.diameter.Some? && d.diameter.value >= MinDiameter
    && d.length.Some? && d.length.value >= MinLength
  }

  /** The optional status is one of the two names. */
  predicate StatusOk(b: PassportInput) {
    b.status.None? || ParseStatus(b.status.value).Some?
  }

  /** The body satisfies the rule set. */
  predicate Acceptable(b: PassportInput) {
    TopOk(b) && DetailsOk(b.details.value) && StatusOk(b)
  }

  lemma TopRulesPass(b: PassportInput)
    ensures AllPass(TopRules(b)) <==> TopOk(b)
  {
    TopRulesSound(b);
    TopRulesComplete(b);
  }

  lemma TopRulesSound(b: PassportInput)
    ensures AllPass(TopRules(b)) ==> TopOk(b)
  {
    var r := TopRules(b);
    assert r[0].ok && r[1].ok && r[3].ok && r[4].ok ==> TopOk(b);
  }

  lemma TopRulesComplete(b: PassportInput)
    ensures TopOk(b) ==> AllPass(TopRules(b))
  {
    var r := TopRules(b);
    assert ParseType("").None?;
  }

  lemma DetailRulesPass(d: DetailsInput)
    ensures AllPass(DetailRules(d)) <==> DetailsOk(d)
  {
    var r := DetailRules(d);
    assert r[0].ok && r[1].ok && r[2].ok && r[3].ok && r[4].ok && r[5].ok ==> DetailsOk(d);
  }

  lemma AllPassConcat(a: seq<Rule>, c: seq<Rule>)
    ensures AllPass(a + c) <==> AllPass(a) && AllPass(c)
  {
    if AllPass(a) && AllPass(c) {
      forall i | 0 <= i < |a + c| ensures (a + c)[i].ok {
        if i >= |a| {
          assert (a + c)[i] == c[i - |a|];
        }
      }
    }
    if AllPass(a + c) {
      assert forall i | 0 <= i < |a| :: (a + c)[i] == a[i];
      forall i | 0 <= i < |c| ensures c[i].ok {
        assert (a + c)[|a| + i] == c[i];
      }
    }
  }

  lemma AllPassConcat3(a: seq<Rule>, c: seq<Rule>, e: seq<Rule>)
    ensures AllPass(a + c + e) <==> AllPass(a) && AllPass(c) && AllPass(e)
  {
    AllPassConcat(a, c);
    AllPassConcat(a + c, e);
  }

  /** The validators all pass exactly when the body is acceptable. */
  lemma RulesPassIff(b: PassportInput)
    ensures AllPass(Rules(b)) <==> Acceptable(b)
  {
    TopRulesPass(b);
    var last := [StatusRule(b)];
    assert last[0] == StatusRule(b);
    assert AllPass(last) <==> StatusOk(b);
    if b.details.Some? {
      DetailRulesPass(b.details.value);
      AllPassConcat3(TopRules(b), DetailRules(b.details.value), [StatusRule(b)]);
    } else {
      AllPassConcat3(TopRules(b), [], [StatusRule(b)]);
    }
  }

  /** The accepted body after the `trim` sanitizers, with the type and status resolved. */
  function Sanitize(b: PassportInput): Payload
    requires Acceptable(b)
  {
    var d := b.details.value;
    Payload(
      Trimmed(b.patientName), b.dateOfBirth.value, ParseType(Trimmed(b.implantType)).value,
      ImplantDetails(Trimmed(d.brand), Trimmed(d.lotNumber), d.implantDate.value, Trimmed(d.position),
                     d.diameter.value, d.length.value, d.notes),
      if b.status.None? then None else ParseStatus(b.status.value),
      b.dentistId, b.patientId, b.pdfUrl)
  }

  /** `validatePassport`: the sanitized payload, or the entry of every failing validator. */
  function Validate(b: PassportInput): (r: Result<Payload, seq<FieldError>>)
    ensures r.Success? <==> Acceptable(b)
    ensures r.Success? ==> r.value == Sanitize(b)
    ensures r.Failure? ==> r.error == Report(Rules(b)) != []
  {
    RulesPassIff(b);
    ReportEmpty(Rules(b));
    if !Acceptable(b) then Failure(Report(Rules(b))) else Success(Sanitize(b))
  }

  /**
   * An accepted payload keeps what the client sent, trimmed: non-blank texts,
   * the named type and status, and a diameter and length at their minimums or above.
   */
  lemma AcceptedPayload(b: PassportInput)
    requires Acceptable(b)
    ensures var pl := Sanitize(b);
      && pl.patientName == Trimmed(b.patientName) != ""
      && Trim(pl.patientName) == pl.patientName
      && Some(pl.dateOfBirth) == b.dateOfBirth
      && TypeName(pl.implantType) == Trimmed(b.implantType)
      && pl.details.brand == Trimmed(b.details.value.brand) != ""
      && pl.details.lotNumber == Trimmed(b.details.value.lotNumber) != ""
      && pl.details.position == Trimmed(b.details.value.position) != ""
      && Some(pl.details.implantDate) == b.details.value.implantDate
      && Some(pl.details.diameter) == b.details.value.diameter && pl.details.diameter >= MinDiameter
      && Some(pl.details.length) == b.details.value.length && pl.details.length >= MinLength
      && pl.details.notes == b.details.value.notes
      && (pl.status.None? <==> b.status.None?)
      && (pl.status.Some? ==> StatusName(pl.status.value) == b.status.value)
      && pl.dentistId == b.dentistId && pl.patientId == b.patientId && pl.pdfUrl == b.pdfUrl
  {
    TrimIdempotent(b.patientName.GetOr(""));
  }

  /**
   * A rejected body is told about every field it gets wrong, not just the
   * first: each failing validator's message is in the error list `Validate` returns.
   */
  lemma ValidateReportsEveryFailure(b: PassportInput, i: int)
    requires 0 <= i < |Rules(b)| && !Rules(b)[i].ok
    ensures !Acceptable(b)
    ensures FieldError(Rules(b)[i].path, Rules(b)[i].msg) in Report(Rules(b))
  {
    ReportExact(Rules(b), FieldError(Rules(b)[i].path, Rules(b)[i].msg));
    RulesPassIff(b);
  }
}
