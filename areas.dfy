/**
 * The catalogue of areas and subareas an evaluator or a work may declare,
 * and the lookups and checks over it. The pedagogical area lists no subareas
 * of its own and may evaluate any subarea of the other areas.
 */
module Areas {
  import opened Text
  import opened Wrappers

  /** The reserved pedagogical area. */
  const Pedagogical: string := "Pedagógica"

  /** The catalogue, as (area, subareas) entries in table order. */
  const Catalogue: seq<(string, seq<string>)> := [
    (Pedagogical, []),
    ("Ciências Agrárias", [
      "Agricultura e Sustentabilidade no Campo",
      "Zootecnia e Produção Animal",
      "Agroindústria e Alimentos",
      "Recursos Naturais e Meio Ambiente Rural",
      "Tecnologias e Processos Agrícolas"]),
    ("Ciências Biológicas e Ciências da Saúde", [
      "Biotecnologia e Microbiologia",
      "Ecologia e Conservação",
      "Saúde Coletiva e Educação em Saúde",
      "Nutrição, Enfermagem e Bem-estar",
      "Práticas Integrativas e Promoção da Saúde"]),
    ("Ciências Exatas e da Terra e Engenharias", [
      "Matemática, Física e Química Aplicada",
      "Tecnologias da Informação e Programação",
      "Robótica, Automação e Eletrônica",
      "Engenharia e Energias Renováveis",
      "Geociências e Sustentabilidade Ambiental"]),
    ("Ciências Sociais Aplicadas e Ciências Humanas", [
      "História, Filosofia e Sociologia",
      "Geografia e Estudos Regionais",
      "Educação, Cidadania e Direitos Humanos",
      "Gestão, Empreendedorismo e Economia",
      "Comunicação, Informação e Cultura Digital"]),
    ("Linguística, Letras e Artes", [
      "Língua Portuguesa e Produção Textual",
      "Línguas Estrangeiras e Multilinguismo",
      "Literatura, Leitura e Narrativas",
      "Artes Visuais, Dança e Teatro",
      "Música, Cinema e Audiovisual"])
  ]

  /** The keys of a list of entries, in order. */
  function Keys(entries: seq<(string, seq<string>)>): (r: seq<string>)
    ensures |r| == |entries|
    ensures forall i :: 0 <= i < |entries| ==> r[i] == entries[i].0
  {
    if entries == [] then [] else Keys(entries[..|entries| - 1]) + [entries[|entries| - 1].0]
  }

  /** `get_all_areas`: the table's keys in table order. */
  function AllAreas(): (r: seq<string>)
    ensures |r| == 6 && r[0] == Pedagogical && Pedagogical in r
    ensures forall i :: 0 <= i < |r| ==> r[i] == Catalogue[i].0
  {
    Keys(Catalogue)
  }

  /** `is_area_valid`: the area is a key of the table. */
  predicate IsAreaValid(area: string) {
    exists k :: 0 <= k < |Catalogue| && Catalogue[k].0 == area
  }

  /** The subarea list of the first entry whose key is `area`, or [] (`dict.get(area, [])`). */
  function Lookup(entries: seq<(string, seq<string>)>, area: string): (r: seq<string>)
    ensures (forall k :: 0 <= k < |entries| ==> entries[k].0 != area) ==> r == []
    ensures forall k :: 0 <= k < |entries| && entries[k].0 == area && (forall j :: 0 <= j < k ==> entries[j].0 != area) ==> r == entries[k].1
  {
    if entries == [] then []
    else if entries[0].0 == area then entries[0].1
    else
      var r := Lookup(entries[1..], area);
      assert forall k :: 1 <= k < |entries| ==> entries[1..][k - 1] == entries[k];
      r
  }

  /** `get_subareas_by_area`. */
  function SubareasByArea(area: string): (r: seq<string>)
    ensures !IsAreaValid(area) ==> r == []
    ensures forall k :: 0 <= k < |Catalogue| && Catalogue[k].0 == area ==> r == Catalogue[k].1
  {
    KeysDistinct();
    Lookup(Catalogue, area)
  }

  /** The six keys are pairwise different (a Python dict has no duplicate keys). */
  lemma {:induction false} KeysDistinct()
    ensures forall i, j :: 0 <= i < j < |Catalogue| ==> Catalogue[i].0 != Catalogue[j].0
  {
  }

  /** The subareas of the entries other than the pedagogical one, concatenated in order. */
  function TechnicalSubareas(entries: seq<(string, seq<string>)>): seq<string> {
    if entries == [] then []
    else
      var last := entries[|entries| - 1];
      TechnicalSubareas(entries[..|entries| - 1]) + (if last.0 != Pedagogical then last.1 else [])
  }

  /** The list `get_all_subareas` returns. */
  function AllSubareas(): seq<string> {
    TechnicalSubareas(Catalogue)
  }

  /** A subarea is in the concatenation exactly when some non-pedagogical entry lists it. */
  lemma {:induction false} TechnicalSubareasMembership(entries: seq<(string, seq<string>)>, s: string)
    ensures s in TechnicalSubareas(entries) <==>
      exists k :: 0 <= k < |entries| && entries[k].0 != Pedagogical && s in entries[k].1
  {
    if entries != [] {
      var init := entries[..|entries| - 1];
      TechnicalSubareasMembership(init, s);
      if s in TechnicalSubareas(entries) && s !in TechnicalSubareas(init) {
        assert entries[|entries| - 1].0 != Pedagogical && s in entries[|entries| - 1].1;
      }
      if exists k :: 0 <= k < |entries| && entries[k].0 != Pedagogical && s in entries[k].1 {
        var k :| 0 <= k < |entries| && entries[k].0 != Pedagogical && s in entries[k].1;
        if k < |entries| - 1 {
          assert init[k] == entries[k];
        }
      }
    }
  }

  lemma {:induction false} TechnicalSubareasStep(entries: seq<(string, seq<string>)>, k: nat)
    requires 0 < k <= |entries|
    ensures TechnicalSubareas(entries[..k]) ==
      TechnicalSubareas(entries[..k - 1]) + (if entries[k - 1].0 != Pedagogical then entries[k - 1].1 else [])
  {
    assert entries[..k][..k - 1] == entries[..k - 1];
  }

  /** `get_all_subareas` holds every subarea of the five technical areas, 25 in all. */
  lemma {:induction false} AllSubareasFacts()
    ensures |AllSubareas()| == 25
    ensures forall s :: s in AllSubareas() <==> exists k :: 1 <= k < |Catalogue| && s in Catalogue[k].1
  {
    AllSubareasLength();
    forall s ensures s in AllSubareas() <==> exists k :: 1 <= k < |Catalogue| && s in Catalogue[k].1 {
      TechnicalSubareasMembership(Catalogue, s);
    }
  }

  lemma {:induction false} AllSubareasLength()
    ensures |AllSubareas()| == 25
  {
    TechnicalSubareasStep(Catalogue, 1);
    TechnicalSubareasStep(Catalogue, 2);
    TechnicalSubareasStep(Catalogue, 3);
    TechnicalSubareasStep(Catalogue, 4);
    TechnicalSubareasStep(Catalogue, 5);
    TechnicalSubareasStep(Catalogue, 6);
    assert Catalogue[..0] == [];
    assert Catalogue[..6] == Catalogue;
  }

  /** `get_all_subareas`: extends a list with every non-pedagogical entry's subareas. */
  method GetAllSubareas() returns (all: seq<string>)
    ensures all == AllSubareas()
  {
    all := [];
    for k := 0 to |Catalogue|
      invariant all == TechnicalSubareas(Catalogue[..k])
    {
      if Catalogue[k].0 != Pedagogical {
        all := all + Catalogue[k].1;
      }
      assert Catalogue[..k + 1][..k] == Catalogue[..k];
    }
    assert Catalogue[..|Catalogue|] == Catalogue;
  }

  /** The subareas `validate_area_subarea` accepts for an area. */
  function ValidSubareas(area: string): seq<string> {
    if area == Pedagogical then AllSubareas() else SubareasByArea(area)
  }

  datatype Verdict = Valid | UnknownArea(area: string) | InvalidSubarea(subarea: string)

  /** The first element of `xs` that is not in `allowed`. */
  function FirstNotIn(xs: seq<string>, allowed: seq<string>): (r: Option<string>)
  {
    if xs == [] then None
    else if xs[0] !in allowed then Some(xs[0])
    else FirstNotIn(xs[1..], allowed)
  }

  lemma {:induction false} FirstNotInAt(xs: seq<string>, allowed: seq<string>, i: nat)
    requires i < |xs| && xs[i] !in allowed
    requires forall j :: 0 <= j < i ==> xs[j] in allowed
    ensures FirstNotIn(xs, allowed) == Some(xs[i])
  {
    if i > 0 {
      FirstNotInAt(xs[1..], allowed, i - 1);
    }
  }

  lemma {:induction false} FirstNotInNone(xs: seq<string>, allowed: seq<string>)
    ensures FirstNotIn(xs, allowed) == None <==> forall j :: 0 <= j < |xs| ==> xs[j] in allowed
  {
    if xs != [] {
      FirstNotInNone(xs[1..], allowed);
      assert forall j :: 1 <= j < |xs| ==> xs[1..][j - 1] == xs[j];
    }
  }

  /** The verdict `validate_area_subarea` reaches. */
  function AreaSubareaVerdict(area: string, subareas: seq<string>): Verdict {
    var valid := ValidSubareas(area);
    if valid == [] && area != Pedagogical then UnknownArea(area)
    else match FirstNotIn(subareas, valid)
      case Some(s) => InvalidSubarea(s)
      case None => Valid
  }

  /** The list `validate_area_subarea` checks the subareas against. */
  method AllowedSubareas(area: string) returns (valid: seq<string>)
    ensures valid == ValidSubareas(area)
  {
    if area == Pedagogical {
      valid := GetAllSubareas();
    } else {
      valid := SubareasByArea(area);
    }
  }

  /** `validate_area_subarea`: an unknown area fails; otherwise the first subarea outside the area's list is reported. */
  method ValidateAreaSubarea(area: string, subareas: seq<string>) returns (v: Verdict)
    ensures v == AreaSubareaVerdict(area, subareas)
  {
    var valid := AllowedSubareas(area);
    if valid == [] && area != Pedagogical {
      return UnknownArea(area);
    }
    var bad := FindNotIn(subareas, valid);
    match bad
    case Some(s) => return InvalidSubarea(s);
    case None => return Valid;
  }

  /** The loop of `validate_area_subarea`: the first subarea outside `valid`, if any. */
  method FindNotIn(subareas: seq<string>, valid: seq<string>) returns (r: Option<string>)
    ensures r == FirstNotIn(subareas, valid)
  {
    for i := 0 to |subareas|
      invariant forall j :: 0 <= j < i ==> subareas[j] in valid
    {
      if subareas[i] !in valid {
        FirstNotInAt(subareas, valid, i);
        return Some(subareas[i]);
      }
    }
    FirstNotInNone(subareas, valid);
    return None;
  }

  /** `is_subarea_valid_for_area`. */
  predicate IsSubareaValidForArea(area: string, subarea: string) {
    if area == Pedagogical then subarea in AllSubareas() else subarea in SubareasByArea(area)
  }

  /** Every key other than the pedagogical one lists some subareas. */
  lemma {:induction false} KnownAreaHasSubareas(area: string)
    ensures ValidSubareas(area) == [] && area != Pedagogical <==> !IsAreaValid(area)
  {
    assert Catalogue[0].0 == Pedagogical;
    if IsAreaValid(area) && area != Pedagogical {
      var k :| 0 <= k < |Catalogue| && Catalogue[k].0 == area;
      assert SubareasByArea(area) == Catalogue[k].1;
    }
  }

  /**
   * The verdict is Valid exactly when the area is in the table and every listed
   * subarea is valid for it; a known area with an empty list is valid, an
   * unknown one is not.
   */
  lemma {:induction false} VerdictCharacterised(area: string, subareas: seq<string>)
    ensures AreaSubareaVerdict(area, subareas) == Valid <==>
      IsAreaValid(area) && forall j :: 0 <= j < |subareas| ==> IsSubareaValidForArea(area, subareas[j])
    ensures !IsAreaValid(area) ==> AreaSubareaVerdict(area, subareas) == UnknownArea(area)
    ensures IsAreaValid(area) ==> AreaSubareaVerdict(area, []) == Valid
  {
    KnownAreaHasSubareas(area);
    FirstNotInNone(subareas, ValidSubareas(area));
    FirstNotInNone([], ValidSubareas(area));
  }

  /** A reported subarea is the first one not valid for the area. */
  lemma {:induction false} InvalidSubareaIsFirst(area: string, subareas: seq<string>, s: string)
    requires AreaSubareaVerdict(area, subareas) == InvalidSubarea(s)
    ensures exists i :: 0 <= i < |subareas| && subareas[i] == s && !IsSubareaValidForArea(area, s) &&
                        forall j :: 0 <= j < i ==> IsSubareaValidForArea(area, subareas[j])
  {
    FirstNotInFound(subareas, ValidSubareas(area));
  }

  lemma {:induction false} FirstNotInFound(xs: seq<string>, allowed: seq<string>)
    requires FirstNotIn(xs, allowed).Some?
    ensures exists i :: 0 <= i < |xs| && xs[i] == FirstNotIn(xs, allowed).value && xs[i] !in allowed &&
                        forall j :: 0 <= j < i ==> xs[j] in allowed
  {
    if xs[0] in allowed {
      FirstNotInFound(xs[1..], allowed);
      var i :| 0 <= i < |xs[1..]| && xs[1..][i] == FirstNotIn(xs[1..], allowed).value && xs[1..][i] !in allowed &&
        forall j :: 0 <= j < i ==> xs[1..][j] in allowed;
      assert forall j :: 1 <= j < i + 1 ==> xs[j] == xs[1..][j - 1];
      assert xs[i + 1] == xs[1..][i];
    } else {
      assert xs[0] == FirstNotIn(xs, allowed).value;
    }
  }

  /** `is_subarea_valid_for_area(a, s)` agrees with the verdict of `validate_area_subarea(a, [s])`. */
  lemma {:induction false} SubareaCheckAgreesWithValidate(area: string, subarea: string)
    ensures IsSubareaValidForArea(area, subarea) <==> AreaSubareaVerdict(area, [subarea]) == Valid
  {
    VerdictCharacterised(area, [subarea]);
    KnownAreaHasSubareas(area);
    if !IsAreaValid(area) {
      assert SubareasByArea(area) == [];
    }
  }

  /** One entry of `get_areas_summary`. */
  datatype SummaryEntry = SummaryEntry(area: string, subareasCount: nat, description: string)

  /** The description of a technical area with `n` subareas. */
  function SpecificDescription(n: nat): string {
    DecimalNat(n) + " subáreas específicas"
  }

  const AnySubareaDescription: string := "Pode avaliar qualquer subárea"

  /**
   * The summary entry of one table entry: the pedagogical area counts every
   * subarea and can evaluate any of them; another area counts its own list.
   */
  predicate Summarises(e: SummaryEntry, entry: (string, seq<string>)) {
    e.area == entry.0 &&
    if entry.0 == Pedagogical then
      e.subareasCount == |AllSubareas()| && e.description == AnySubareaDescription
    else
      e.subareasCount == |entry.1| && e.description == SpecificDescription(|entry.1|)
  }

  /** `get_areas_summary`: one entry per area in table order. */
  method GetAreasSummary() returns (summary: seq<SummaryEntry>)
    ensures |summary| == |Catalogue|
    ensures forall i :: 0 <= i < |summary| ==> Summarises(summary[i], Catalogue[i])
  {
    summary := [];
    for k := 0 to |Catalogue|
      invariant |summary| == k
      invariant forall i :: 0 <= i < k ==> Summarises(summary[i], Catalogue[i])
    {
      var (area, subareas) := Catalogue[k];
      var entry;
      if area == Pedagogical {
        var all := GetAllSubareas();
        entry := SummaryEntry(area, |all|, AnySubareaDescription);
      } else {
        entry := SummaryEntry(area, |subareas|, SpecificDescription(|subareas|));
      }
      assert Summarises(entry, Catalogue[k]);
      summary := summary + [entry];
    }
  }

  /** No character of `s`, lowered, is `c`. */
  predicate Absent(s: string, c: char) {
    forall i :: 0 <= i < |s| ==> Lower(s[i]) != c
  }

  lemma {:induction false} AbsentConcat(a: string, b: string, c: char)
    requires Absent(a, c) && Absent(b, c)
    ensures Absent(a + b, c)
  {
    forall i | 0 <= i < |a + b| ensures Lower((a + b)[i]) != c {
      if i >= |a| {
        assert (a + b)[i] == b[i - |a|];
      }
    }
  }

  /** The pedagogical area's name contains "pedag". */
  lemma {:induction false} PedagogicalMatchesMarker()
    ensures ContainsIgnoreCase(Pedagogical, "pedag")
  {
    StartsWithIgnoreCaseAt(Pedagogical, "pedag");
  }

  lemma {:induction false} AgrariasLacksMarker()
    ensures !ContainsIgnoreCase(Catalogue[1].0, "pedag")
  {
    AbsentConcat("Ciências", " Agrária", 'p');
    AbsentConcat("Ciências Agrária", "s", 'p');
    assert "Ciências Agrárias" == Catalogue[1].0;
    MissingCharNotContained(Catalogue[1].0, "pedag", 0);
  }

  lemma {:induction false} BiologicasLacksMarker()
    ensures !ContainsIgnoreCase(Catalogue[2].0, "pedag")
  {
    BiologicasHeadLacks();
    BiologicasTailLacks();
    AbsentConcat("Ciências Biológicas e Ci", "ências da Saúde", 'p');
    assert "Ciências Biológicas e Ciências da Saúde" == Catalogue[2].0;
    MissingCharNotContained(Catalogue[2].0, "pedag", 0);
  }

  lemma {:induction false} BiologicasHeadLacks()
    ensures Absent("Ciências Biológicas e Ci", 'p')
  {
    AbsentConcat("Ciências", " Biológi", 'p');
    AbsentConcat("Ciências Biológi", "cas e Ci", 'p');
  }

  lemma {:induction false} BiologicasTailLacks()
    ensures Absent("ências da Saúde", 'p')
  {
    AbsentConcat("ências d", "a Saúde", 'p');
  }

  lemma {:induction false} ExatasLacksMarker()
    ensures !ContainsIgnoreCase(Catalogue[3].0, "pedag")
  {
    ExatasHeadLacks();
    ExatasTailLacks();
    AbsentConcat("Ciências Exatas e da Ter", "ra e Engenharias", 'p');
    assert "Ciências Exatas e da Terra e Engenharias" == Catalogue[3].0;
    MissingCharNotContained(Catalogue[3].0, "pedag", 0);
  }

  lemma {:induction false} ExatasHeadLacks()
    ensures Absent("Ciências Exatas e da Ter", 'p')
  {
    AbsentConcat("Ciências", " Exatas ", 'p');
    AbsentConcat("Ciências Exatas ", "e da Ter", 'p');
  }

  lemma {:induction false} ExatasTailLacks()
    ensures Absent("ra e Engenharias", 'p')
  {
    AbsentConcat("ra e Eng", "enharias", 'p');
  }

  lemma {:induction false} SociaisLacksMarker()
    ensures !ContainsIgnoreCase(Catalogue[4].0, "pedag")
  {
    SociaisHeadLacks();
    SociaisTailLacks();
    AbsentConcat("Ciências Sociais Aplicad", "as e Ciências Humanas", 'g');
    assert "Ciências Sociais Aplicadas e Ciências Humanas" == Catalogue[4].0;
    MissingCharNotContained(Catalogue[4].0, "pedag", 4);
  }

  lemma {:induction false} SociaisHeadLacks()
    ensures Absent("Ciências Sociais Aplicad", 'g')
  {
    AbsentConcat("Ciências", " Sociais", 'g');
    AbsentConcat("Ciências Sociais", " Aplicad", 'g');
  }

  lemma {:induction false} SociaisTailLacks()
    ensures Absent("as e Ciências Humanas", 'g')
  {
    AbsentConcat("as e Ciê", "ncias Hu", 'g');
    AbsentConcat("as e Ciências Hu", "manas", 'g');
  }

  lemma {:induction false} LinguisticaLacksMarker()
    ensures !ContainsIgnoreCase(Catalogue[5].0, "pedag")
  {
    LinguisticaHeadLacks();
    LinguisticaTailLacks();
    AbsentConcat("Linguística, Let", "ras e Artes", 'p');
    assert "Linguística, Letras e Artes" == Catalogue[5].0;
    MissingCharNotContained(Catalogue[5].0, "pedag", 0);
  }

  lemma {:induction false} LinguisticaHeadLacks()
    ensures Absent("Linguística, Let", 'p')
  {
    AbsentConcat("Linguíst", "ica, Let", 'p');
  }

  lemma {:induction false} LinguisticaTailLacks()
    ensures Absent("ras e Artes", 'p')
  {
    AbsentConcat("ras e Ar", "tes", 'p');
  }

  /**
   * The pedagogical area is the only catalogue area whose name contains
   * "pedag" in any case, so the distribution's split by `ILIKE '%pedag%'`
   * agrees with the catalogue.
   */
  lemma {:induction false} OnlyPedagogicalMatchesMarker()
    ensures forall k :: 0 <= k < |Catalogue| ==> (ContainsIgnoreCase(Catalogue[k].0, "pedag") <==> k == 0)
  {
    forall k | 0 <= k < |Catalogue| ensures ContainsIgnoreCase(Catalogue[k].0, "pedag") <==> k == 0 {
      if k == 0 {
        PedagogicalMatchesMarker();
      } else if k == 1 {
        AgrariasLacksMarker();
      } else if k == 2 {
        BiologicasLacksMarker();
      } else if k == 3 {
        ExatasLacksMarker();
      } else if k == 4 {
        SociaisLacksMarker();
      } else {
        LinguisticaLacksMarker();
      }
    }
  }
}
