/**
 * The AI sheet reader: the sanitiser for the five scores a model reports, and
 * the shapes of the result of reading a photographed evaluation sheet. The
 * model call itself is a foreign service; its reply is a parameter here.
 */
module AiService {
  import opened Wrappers
  import opened Python

  /** `[None, None, None, None, None]`. */
  const NoScores: seq<Option<int>> := [None, None, None, None, None]

  /** One reported score: a number from 1 to 5 (a `bool` counts as 0 or 1) becomes its integer part, anything else None. */
  function ScoreOf(v: Value): (r: Option<int>)
    ensures r.Some? <==> IsNumber(v) && 1.0 <= NumberOf(v) <= 5.0
    ensures r.Some? ==> 1 <= r.value <= 5 && r.value as real <= NumberOf(v) < r.value as real + 1.0
  {
    if v.Null? then None
    else if IsNumber(v) && 1.0 <= NumberOf(v) <= 5.0 then Some(Trunc(NumberOf(v)))
    else None
  }

  /** `validate_scores`: five sanitised scores for a list of five, five Nones for anything else. */
  function ScoresOf(v: Value): (r: seq<Option<int>>)
    ensures |r| == 5
  {
    if !v.List? || |v.items| != 5 then NoScores
    else seq(5, i requires 0 <= i < 5 => ScoreOf(v.items[i]))
  }

  /** `validate_scores`, which appends one sanitised score per item. */
  method ValidateScores(v: Value) returns (r: seq<Option<int>>)
    ensures r == ScoresOf(v)
  {
    if !v.List? || |v.items| != 5 {
      return NoScores;
    }
    r := [];
    for i := 0 to |v.items|
      invariant |r| == i
      invariant forall j :: 0 <= j < i ==> r[j] == ScoreOf(v.items[j])
    {
      if v.items[i].Null? {
        r := r + [None];
      } else if IsNumber(v.items[i]) && 1.0 <= NumberOf(v.items[i]) <= 5.0 {
        r := r + [Some(Trunc(NumberOf(v.items[i])))];
      } else {
        r := r + [None];
      }
    }
  }

  /**
   * The sanitised scores: always five, each None or an integer from 1 to 5;
   * for a list of five, position `i` holds the integer part of item `i` when
   * that item is a number from 1 to 5 and None otherwise.
   */
  lemma {:induction false} ScoresMeaning(v: Value, i: nat)
    requires i < 5
    ensures var r := ScoresOf(v);
      |r| == 5 &&
      (r[i].Some? ==> 1 <= r[i].value <= 5) &&
      (!v.List? || |v.items| != 5 ==> r[i].None?) &&
      (v.List? && |v.items| == 5 ==>
        (r[i].Some? <==> IsNumber(v.items[i]) && 1.0 <= NumberOf(v.items[i]) <= 5.0) &&
        (r[i].Some? ==> r[i].value as real <= NumberOf(v.items[i]) < r[i].value as real + 1.0))
  {
  }

  /** The scores as the JSON list they are sent back as. */
  function AsValue(scores: seq<Option<int>>): (v: Value)
    ensures v.List? && |v.items| == |scores|
  {
    List(seq(|scores|, i requires 0 <= i < |scores| => match scores[i] case None => Null case Some(k) => Int(k)))
  }

  /** Sanitising sanitised scores changes nothing. */
  lemma {:induction false} ScoresIdempotent(v: Value)
    ensures ScoresOf(AsValue(ScoresOf(v))) == ScoresOf(v)
  {
    var r := ScoresOf(v);
    var w := AsValue(r);
    forall i | 0 <= i < 5 ensures ScoresOf(w)[i] == r[i] {
      ScoresMeaning(v, i);
      assert w.items[i] == match r[i] case None => Null case Some(k) => Int(k);
    }
  }

  // ---------------------------------------------------------------------------
  // Reading a sheet
  // ---------------------------------------------------------------------------

  const ResolutionWarning: string := "Use uma imagem com resolução mínima de 100x100 pixels."
  const NoMarksWarning: string := "Nenhuma marca válida encontrada."
  const UnreadableReply: string := "Erro ao processar resposta da IA."
  const ReadFailure: string := "Erro ao processar imagem com IA: "

  /**
   * What the model call ends in: a reply that parses as JSON (with the code
   * fences removed), a reply that does not parse, or an exception with its
   * text (no API key, a network error, ...).
   */
  datatype Reply = Parsed(json: Value) | Unparsable | Failed(detail: string)

  /** The dict `process_sheet_image_ai` returns, or the ValueError it raises. */
  datatype Reading = Reading(scores: seq<Option<int>>, warning: Option<string>) | ReadError(message: string)

  /** Python's name for the type of a JSON value. */
  function TypeName(v: Value): string {
    match v
    case Null => "NoneType"
    case Bool(_) => "bool"
    case Int(_) => "int"
    case Float(_) => "float"
    case Str(_) => "str"
    case List(_) => "list"
    case Dict(_) => "dict"
  }

  /**
   * `process_sheet_image_ai` for an image of `width` by `height` pixels whose
   * model call ended in `reply`. A parsed reply that is not an object has no
   * `get`, and that AttributeError becomes the ValueError too.
   */
  function ProcessSheetImage(width: int, height: int, reply: Reply): (r: Reading) {
    if width < 100 || height < 100 then Reading(NoScores, Some(ResolutionWarning))
    else
      match reply
      case Unparsable => Reading(NoScores, Some(UnreadableReply))
      case Failed(detail) => ReadError(ReadFailure + detail)
      case Parsed(json) =>
        if !json.Dict? then ReadError(ReadFailure + "'" + TypeName(json) + "' object has no attribute 'get'")
        else
          var scores := ScoresOf(GetOr(json.entries, "scores", List([])));
          if forall i :: 0 <= i < |scores| ==> scores[i].None? then Reading(scores, Some(NoMarksWarning))
          else Reading(scores, None)
  }

  /**
   * A reading always has five sanitised scores; it carries a warning exactly
   * when no score was read, and the image is checked for size before the
   * model is asked.
   */
  lemma {:induction false} ReadingMeaning(width: int, height: int, reply: Reply)
    ensures var r := ProcessSheetImage(width, height, reply);
      (r.Reading? ==>
        |r.scores| == 5 && (forall i :: 0 <= i < 5 && r.scores[i].Some? ==> 1 <= r.scores[i].value <= 5) &&
        (r.warning.Some? <==> forall i :: 0 <= i < 5 ==> r.scores[i].None?)) &&
      (width < 100 || height < 100 ==> r == Reading(NoScores, Some(ResolutionWarning))) &&
      (r.ReadError? ==> StartsWithFailure(r.message))
  {
    var r := ProcessSheetImage(width, height, reply);
    if r.Reading? && !(width < 100 || height < 100) && reply.Parsed? {
      forall i | 0 <= i < 5 && r.scores[i].Some? ensures 1 <= r.scores[i].value <= 5 {
        ScoresMeaning(GetOr(reply.json.entries, "scores", List([])), i);
      }
    }
  }

  predicate StartsWithFailure(message: string) {
    |ReadFailure| <= |message| && message[..|ReadFailure|] == ReadFailure
  }

  /** A reply whose `scores` hold five valid marks comes back as those marks, truncated, with no warning. */
  lemma {:induction false} FullMarksRead(width: int, height: int, marks: seq<int>)
    requires width >= 100 && height >= 100
    requires |marks| == 5 && forall i :: 0 <= i < 5 ==> 1 <= marks[i] <= 5
    ensures var reply := Parsed(Dict(map["scores" := List(seq(5, i requires 0 <= i < 5 => Int(marks[i])))]));
      ProcessSheetImage(width, height, reply) == Reading(seq(5, i requires 0 <= i < 5 => Some(marks[i])), None)
  {
    var items := seq(5, i requires 0 <= i < 5 => Int(marks[i]));
    var scores := ScoresOf(List(items));
    forall i | 0 <= i < 5 ensures scores[i] == Some(marks[i]) {
      assert items[i] == Int(marks[i]);
    }
    assert scores[0].Some?;
  }
}
