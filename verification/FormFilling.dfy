/** The fill loop: which fields are written, skipped or fail, and when filling gives up. */
module FormFilling {
  import opened Prelude
  import opened Domain
  import opened FormMapping

  /** The page refuses these (field name, value) writes. */
  type Refusals = set<(string, string)>

  datatype Failure = FileUpload | LengthMismatch

  /** `writes` are the values put into the page; the other three are the lists the fill reports. */
  datatype FillResult = FillResult(filled: seq<string>, skipped: seq<string>, errors: seq<string>, writes: seq<(string, string)>)

  datatype FillOutcome = Raised(failure: Failure) | Filled(result: FillResult)

  datatype Fate = Skipped | Written | Refused | Fatal

  /** What happens to one field. */
  function FateOf(f: DetectedField, m: FieldMapping, refusals: Refusals): Fate {
    if m.requiresHuman || m.value.None? then Skipped
    else if f.kind == File then Fatal
    else if (f.name, m.value.value) in refusals then Refused
    else Written
  }

  /** The names of the first `n` fields that meet a fate, in field order. */
  function Named(fields: seq<DetectedField>, mappings: seq<FieldMapping>, refusals: Refusals, n: nat, fate: Fate): seq<string>
    requires n <= |fields| && n <= |mappings|
  {
    if n == 0 then []
    else Named(fields, mappings, refusals, n - 1, fate)
         + if FateOf(fields[n - 1], mappings[n - 1], refusals) == fate then [fields[n - 1].name] else []
  }

  function Writes(fields: seq<DetectedField>, mappings: seq<FieldMapping>, refusals: Refusals, n: nat): seq<(string, string)>
    requires n <= |fields| && n <= |mappings|
  {
    if n == 0 then []
    else Writes(fields, mappings, refusals, n - 1)
         + if FateOf(fields[n - 1], mappings[n - 1], refusals) == Written then [(fields[n - 1].name, mappings[n - 1].value.value)] else []
  }

  /** Some field below `n` is a file field with a value to write. */
  predicate HasFatal(fields: seq<DetectedField>, mappings: seq<FieldMapping>, refusals: Refusals, n: nat)
    requires n <= |fields| && n <= |mappings|
  {
    exists i :: 0 <= i < n && FateOf(fields[i], mappings[i], refusals) == Fatal
  }

  /** Filling raises exactly when a file field has a value or the two lists differ in length; otherwise it reports by fate. */
  function Fill(fields: seq<DetectedField>, mappings: seq<FieldMapping>, refusals: Refusals): FillOutcome {
    var n := if |fields| < |mappings| then |fields| else |mappings|;
    if HasFatal(fields, mappings, refusals, n) then Raised(FileUpload)
    else if |fields| != |mappings| then Raised(LengthMismatch)
    else Filled(FillResult(
      Named(fields, mappings, refusals, n, Written), Named(fields, mappings, refusals, n, Skipped),
      Named(fields, mappings, refusals, n, Refused), Writes(fields, mappings, refusals, n)))
  }

  method FillForm(fields: seq<DetectedField>, mappings: seq<FieldMapping>, refusals: Refusals) returns (out: FillOutcome)
    ensures out == Fill(fields, mappings, refusals)
  {
    var filled, skipped, errors: seq<string> := [], [], [];
    var writes: seq<(string, string)> := [];
    var i := 0;
    while i < |fields| && i < |mappings|
      invariant i <= |fields| && i <= |mappings|
      invariant !HasFatal(fields, mappings, refusals, i)
      invariant filled == Named(fields, mappings, refusals, i, Written)
      invariant skipped == Named(fields, mappings, refusals, i, Skipped)
      invariant errors == Named(fields, mappings, refusals, i, Refused)
      invariant writes == Writes(fields, mappings, refusals, i)
    {
      var field, mapping := fields[i], mappings[i];
      i := i + 1;
      if mapping.requiresHuman || mapping.value.None? {
        skipped := skipped + [field.name];
        continue;
      }
      if field.kind == File {
        return Raised(FileUpload);
      }
      if (field.name, mapping.value.value) in refusals {
        errors := errors + [field.name];
      } else {
        filled := filled + [field.name];
        writes := writes + [(field.name, mapping.value.value)];
      }
    }
    if |fields| != |mappings| {
      return Raised(LengthMismatch);
    }
    out := Filled(FillResult(filled, skipped, errors, writes));
  }

  /** The value at position `i` is put into the page if the page takes it. */
  ghost predicate Writable(fields: seq<DetectedField>, mappings: seq<FieldMapping>, i: int) {
    0 <= i < |fields| && i < |mappings| && !mappings[i].requiresHuman && mappings[i].value.Some?
  }

  lemma FateExactly(fields: seq<DetectedField>, mappings: seq<FieldMapping>, refusals: Refusals, i: nat)
    requires i < |fields| && i < |mappings|
    ensures var fate := FateOf(fields[i], mappings[i], refusals);
            && (fate == Skipped <==> !Writable(fields, mappings, i))
            && (fate == Refused <==> Writable(fields, mappings, i) && fields[i].kind != File && (fields[i].name, mappings[i].value.value) in refusals)
            && (fate == Written <==> Writable(fields, mappings, i) && fields[i].kind != File && (fields[i].name, mappings[i].value.value) !in refusals)
            && (Writable(fields, mappings, i) ==> mappings[i].value.Some?)
  {
  }

  lemma {:induction false} NamedExactly(fields: seq<DetectedField>, mappings: seq<FieldMapping>, refusals: Refusals, n: nat, x: string, v: string)
    requires n <= |fields| && n <= |mappings|
    ensures x in Named(fields, mappings, refusals, n, Skipped) <==>
            exists i :: 0 <= i < n && fields[i].name == x && !Writable(fields, mappings, i)
    ensures x in Named(fields, mappings, refusals, n, Refused) <==>
            exists i :: 0 <= i < n && fields[i].name == x && Writable(fields, mappings, i) && fields[i].kind != File
                        && (x, mappings[i].value.value) in refusals
    ensures x in Named(fields, mappings, refusals, n, Written) <==>
            exists i :: 0 <= i < n && fields[i].name == x && Writable(fields, mappings, i) && fields[i].kind != File
                        && (x, mappings[i].value.value) !in refusals
    ensures (x, v) in Writes(fields, mappings, refusals, n) <==>
            exists i :: 0 <= i < n && fields[i].name == x && Writable(fields, mappings, i) && fields[i].kind != File
                        && mappings[i].value == Some(v) && (x, v) !in refusals
  {
    if n > 0 {
      NamedExactly(fields, mappings, refusals, n - 1, x, v);
      FateExactly(fields, mappings, refusals, n - 1);
      hide FateOf, Writable;
    }
  }

  /** Filling raises for the first file field with a value and no open question, or for lists of different length; otherwise it skips
      what is open or empty, and writes the rest except what the page refuses. */
  lemma FillExactly(fields: seq<DetectedField>, mappings: seq<FieldMapping>, refusals: Refusals, x: string, v: string)
    ensures var out := Fill(fields, mappings, refusals);
            && (out == Raised(FileUpload) <==> exists i :: Writable(fields, mappings, i) && fields[i].kind == File)
            && (out == Raised(LengthMismatch) <==>
                  |fields| != |mappings| && !exists i :: Writable(fields, mappings, i) && fields[i].kind == File)
            && (out.Filled? ==>
                  && (x in out.result.skipped <==> exists i :: 0 <= i < |fields| && fields[i].name == x && !Writable(fields, mappings, i))
                  && (x in out.result.errors <==>
                        exists i :: Writable(fields, mappings, i) && fields[i].name == x && (x, mappings[i].value.value) in refusals)
                  && (x in out.result.filled <==>
                        exists i :: Writable(fields, mappings, i) && fields[i].name == x && (x, mappings[i].value.value) !in refusals)
                  && ((x, v) in out.result.writes <==>
                        exists i :: Writable(fields, mappings, i) && fields[i].name == x && mappings[i].value == Some(v) && (x, v) !in refusals))
  {
    hide Named, Writes;
    var n := if |fields| < |mappings| then |fields| else |mappings|;
    FatalWritable(fields, mappings, refusals, n);
    NamedExactly(fields, mappings, refusals, n, x, v);
    hide FateOf, HasFatal;
  }

  lemma FatalWritable(fields: seq<DetectedField>, mappings: seq<FieldMapping>, refusals: Refusals, n: nat)
    requires n <= |fields| && n <= |mappings| && (n == |fields| || n == |mappings|)
    ensures HasFatal(fields, mappings, refusals, n) <==> exists i :: Writable(fields, mappings, i) && fields[i].kind == File
  {
    if i :| Writable(fields, mappings, i) && fields[i].kind == File { assert FateOf(fields[i], mappings[i], refusals) == Fatal; }
    if i :| 0 <= i < n && FateOf(fields[i], mappings[i], refusals) == Fatal { assert Writable(fields, mappings, i); }
  }

  function Names(fields: seq<DetectedField>, n: nat): seq<string>
    requires n <= |fields|
  {
    if n == 0 then [] else Names(fields, n - 1) + [fields[n - 1].name]
  }

  lemma NamedStep(fields: seq<DetectedField>, mappings: seq<FieldMapping>, refusals: Refusals, n: nat, fate: Fate)
    requires n < |fields| && n < |mappings|
    ensures FateOf(fields[n], mappings[n], refusals) == fate ==>
              && Named(fields, mappings, refusals, n + 1, fate) == Named(fields, mappings, refusals, n, fate) + [fields[n].name]
              && multiset(Named(fields, mappings, refusals, n + 1, fate))
                 == multiset(Named(fields, mappings, refusals, n, fate)) + multiset{fields[n].name}
    ensures FateOf(fields[n], mappings[n], refusals) != fate ==>
              Named(fields, mappings, refusals, n + 1, fate) == Named(fields, mappings, refusals, n, fate)
  {
    hide FateOf;
  }

  /** Without a fatal field, written, skipped and refused fields partition the fields. */
  lemma {:induction false} FatesPartition(fields: seq<DetectedField>, mappings: seq<FieldMapping>, refusals: Refusals, n: nat)
    requires n <= |fields| && n <= |mappings| && !HasFatal(fields, mappings, refusals, n)
    ensures multiset(Named(fields, mappings, refusals, n, Written)) + multiset(Named(fields, mappings, refusals, n, Skipped))
            + multiset(Named(fields, mappings, refusals, n, Refused)) == multiset(Names(fields, n))
  {
    hide *;
    if n == 0 {
      NothingNamed(fields, mappings, refusals);
    } else {
      FatalBelow(fields, mappings, refusals, n);
      FatesPartition(fields, mappings, refusals, n - 1);
      NamedStep(fields, mappings, refusals, n - 1, Written);
      NamedStep(fields, mappings, refusals, n - 1, Skipped);
      NamedStep(fields, mappings, refusals, n - 1, Refused);
      NamesStep(fields, n - 1);
      AddOne(multiset(Named(fields, mappings, refusals, n - 1, Written)), multiset(Named(fields, mappings, refusals, n - 1, Skipped)),
             multiset(Named(fields, mappings, refusals, n - 1, Refused)), fields[n - 1].name);
    }
  }

  lemma NothingNamed(fields: seq<DetectedField>, mappings: seq<FieldMapping>, refusals: Refusals)
    ensures forall fate :: Named(fields, mappings, refusals, 0, fate) == []
    ensures Names(fields, 0) == []
  {
  }

  lemma FatalBelow(fields: seq<DetectedField>, mappings: seq<FieldMapping>, refusals: Refusals, n: nat)
    requires 0 < n <= |fields| && n <= |mappings| && !HasFatal(fields, mappings, refusals, n)
    ensures !HasFatal(fields, mappings, refusals, n - 1)
    ensures FateOf(fields[n - 1], mappings[n - 1], refusals) != Fatal
  {
    hide FateOf;
  }

  lemma NamesStep(fields: seq<DetectedField>, n: nat)
    requires n < |fields|
    ensures multiset(Names(fields, n + 1)) == multiset(Names(fields, n)) + multiset{fields[n].name}
  {
  }

  lemma AddOne(a: multiset<string>, b: multiset<string>, c: multiset<string>, x: string)
    ensures (a + multiset{x}) + b + c == a + b + c + multiset{x}
    ensures a + (b + multiset{x}) + c == a + b + c + multiset{x}
    ensures a + b + (c + multiset{x}) == a + b + c + multiset{x}
  {
  }

  /** Every write puts the value of some mapping that no longer needs a human into the field at the same position. */
  lemma {:induction false} WriteOrigin(fields: seq<DetectedField>, mappings: seq<FieldMapping>, refusals: Refusals, n: nat, w: (string, string))
    returns (i: int)
    requires n <= |fields| && n <= |mappings| && w in Writes(fields, mappings, refusals, n)
    ensures 0 <= i < n && w == (fields[i].name, if mappings[i].value.Some? then mappings[i].value.value else "")
    ensures !mappings[i].requiresHuman && mappings[i].value.Some?
  {
    var before := Writes(fields, mappings, refusals, n - 1);
    if w in before {
      i := WriteOrigin(fields, mappings, refusals, n - 1, w);
    } else {
      i := n - 1;
    }
  }

  /** From page to page: a written value is a confident profile value or the human's answer for that very field,
      and an answer touches only the mappings that asked for one. */
  lemma WrittenValuesHaveProvenance(fields: seq<DetectedField>, profile: Profile, threshold: real, a: Answer, refusals: Refusals, w: (string, string))
    requires var out := Fill(fields, AnswerMappings(MapFields(fields, profile, threshold), a), refusals);
             out.Filled? && w in out.result.writes
    ensures exists i :: 0 <= i < |fields| && w.0 == fields[i].name &&
              var m := MapField(fields[i], profile, threshold);
              || (ConfidentProfileValue(fields[i], m, profile, threshold) && m.value == Some(w.1))
              || (m.requiresHuman && m.field in a && a[m.field] == w.1)
  {
    hide MapField, ConfidentProfileValue;
    var mappings := AnswerMappings(MapFields(fields, profile, threshold), a);
    var i := WriteOrigin(fields, mappings, refusals, |fields|, w);
    MapFieldNeverGuesses(fields[i], profile, threshold);
    assert mappings[i] == AnswerMapping(MapField(fields[i], profile, threshold), a);
  }

  /** A human answer keeps length, order and field names, and changes only mappings that required a human. */
  lemma AnswerChangesOnlyUnknown(mappings: seq<FieldMapping>, a: Answer)
    ensures var after := AnswerMappings(mappings, a);
            && |after| == |mappings|
            && forall i :: 0 <= i < |mappings| ==>
                 && after[i].field == mappings[i].field && after[i].confidence == mappings[i].confidence
                 && (after[i] != mappings[i] ==> mappings[i].requiresHuman && mappings[i].field in a)
                 && (after[i].requiresHuman <==> mappings[i].requiresHuman && mappings[i].field !in a)
  {
  }
}
