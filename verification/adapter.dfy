/** The workout list's adapter (ui/home/TreinosAdapter.kt): it owns the list
    of workouts shown, formats one summary line per item and packs a workout
    into navigation arguments when an item is tapped. */
module Adapter {
  import opened Wrappers
  import opened KotlinText
  import opened Records
  import opened Bundles

  /** The title of an item: the workout's name, or "Sem nome". */
  function Title(t: Treino): (title: string)
    ensures t.nomeTreino.Some? ==> title == t.nomeTreino.value
    ensures t.nomeTreino.None? ==> title == "Sem nome"
  {
    t.nomeTreino.GetOr("Sem nome")
  }

  /** The number of exercises shown for a workout: the number of pieces its
      exercise text splits into at line breaks, or 0 when there is no text.
      That is one more than the number of line breaks, so an empty text still
      counts one exercise. */
  function ExerciseCount(t: Treino): (n: nat)
    ensures t.exercicios.None? ==> n == 0
    ensures t.exercicios.Some? ==> n == Occurrences(t.exercicios.value, '\n') + 1
    ensures t.exercicios == Some("") ==> n == 1
  {
    if t.exercicios.Some? then |Split(t.exercicios.value, '\n')| else 0
  }

  /** The details line of an item: series and repetitions (0 when null)
      joined by an `x`, then a dash and the exercise count followed by the
      word "exercícios". */
  function Summary(t: Treino): (line: string)
    ensures IntToString(t.series.GetOr(0)) + "x" <= line
    ensures |line| >= 11 && line[|line| - 11..] == " exercícios"
  {
    IntToString(t.series.GetOr(0)) + "x" + IntToString(t.repeticoes.GetOr(0))
      + " - " + IntToString(ExerciseCount(t)) + " exercícios"
  }

  /** A printed `Int` followed by a separator that is neither a digit nor
      `-` can be read back: the number and the rest are determined. */
  lemma NumberBeforeSeparator(n1: int, n2: int, c: char, x: string, y: string)
    requires IsInt32(n1) && IsInt32(n2) && c != '-' && !IsDigit(c)
    requires IntToString(n1) + [c] + x == IntToString(n2) + [c] + y
    ensures n1 == n2 && x == y
  {
    var s1, s2 := IntToString(n1), IntToString(n2);
    assert s1 == [s1[0]] + s1[1..] && s2 == [s2[0]] + s2[1..];
    PrefixBeforeSeparator(s1, s2, c, x, y);
    IntToStringInjective(n1, n2);
  }

  /** Regrouping the summary's pieces around its single-character separators. */
  lemma RegroupSummary(a: string, b: string, c: string)
    ensures a + "x" + b + " - " + c + " exercícios"
         == a + ['x'] + (b + [' '] + ("- " + (c + [' '] + "exercícios")))
  {
    assert " - " == [' '] + "- ";
    assert " exercícios" == [' '] + "exercícios";
  }

  /** The summary line with its separators spelled out one character at a time. */
  lemma SummaryParts(t: Treino)
    ensures Summary(t) == IntToString(t.series.GetOr(0)) + ['x']
      + (IntToString(t.repeticoes.GetOr(0)) + [' ']
      + ("- " + (IntToString(ExerciseCount(t)) + [' '] + "exercícios")))
  {
    RegroupSummary(IntToString(t.series.GetOr(0)), IntToString(t.repeticoes.GetOr(0)),
                   IntToString(ExerciseCount(t)));
  }

  /** The summary line determines the three numbers it shows: two workouts
      with the same line show the same series, repetitions and count. */
  lemma SummaryDeterminesCounts(t1: Treino, t2: Treino)
    requires IsInt32(t1.series.GetOr(0)) && IsInt32(t2.series.GetOr(0))
    requires IsInt32(t1.repeticoes.GetOr(0)) && IsInt32(t2.repeticoes.GetOr(0))
    requires IsInt32(ExerciseCount(t1)) && IsInt32(ExerciseCount(t2))
    requires Summary(t1) == Summary(t2)
    ensures t1.series.GetOr(0) == t2.series.GetOr(0)
    ensures t1.repeticoes.GetOr(0) == t2.repeticoes.GetOr(0)
    ensures ExerciseCount(t1) == ExerciseCount(t2)
  {
    SummaryParts(t1);
    SummaryParts(t2);
    var c1, c2 := IntToString(ExerciseCount(t1)), IntToString(ExerciseCount(t2));
    var rest1 := "- " + (c1 + [' '] + "exercícios");
    var rest2 := "- " + (c2 + [' '] + "exercícios");
    NumberBeforeSeparator(t1.series.GetOr(0), t2.series.GetOr(0), 'x',
      IntToString(t1.repeticoes.GetOr(0)) + [' '] + rest1,
      IntToString(t2.repeticoes.GetOr(0)) + [' '] + rest2);
    NumberBeforeSeparator(t1.repeticoes.GetOr(0), t2.repeticoes.GetOr(0), ' ', rest1, rest2);
    assert c1 + [' '] + "exercícios" == rest1[2..];
    assert c2 + [' '] + "exercícios" == rest2[2..];
    NumberBeforeSeparator(ExerciseCount(t1), ExerciseCount(t2), ' ', "exercícios", "exercícios");
  }

  /** The arguments of `navegarParaDetalhes`: every string property as is
      (null included), series and repetitions with null sent as 0. */
  function EncodeArgs(t: Treino): (b: Bundle)
    ensures b.Keys == {"treinoKey", "nomeTreino", "exercicios", "series", "repeticoes", "observacoes", "userId"}
  {
    map[
      "treinoKey" := StringArg(t.key),
      "nomeTreino" := StringArg(t.nomeTreino),
      "exercicios" := StringArg(t.exercicios),
      "series" := IntArg(t.series.GetOr(0)),
      "repeticoes" := IntArg(t.repeticoes.GetOr(0)),
      "observacoes" := StringArg(t.observacoes),
      "userId" := StringArg(t.userId)]
  }

  /** The adapter's `treinos` list, changed in place. */
  class TreinosAdapter {
    var treinos: seq<Treino>

    constructor (initial: seq<Treino>)
      ensures treinos == initial
    {
      treinos := initial;
    }

    /** The number of items the list shows. */
    function ItemCount(): (n: nat)
      reads this
      ensures n == |treinos|
    {
      |treinos|
    }

    /** Replaces the list: it is emptied, then the new workouts are appended. */
    method UpdateTreinos(novos: seq<Treino>)
      modifies this
      ensures treinos == novos && ItemCount() == |novos|
    {
      treinos := [];
      treinos := treinos + novos;
    }

    /** `addTreino`: inserts at the front, shifting the others up by one. */
    method AddTreino(t: Treino)
      modifies this
      ensures treinos == [t] + old(treinos)
      ensures ItemCount() == old(ItemCount()) + 1 && treinos[0] == t
      ensures forall i :: 0 <= i < |old(treinos)| ==> treinos[i + 1] == old(treinos)[i]
    {
      treinos := [t] + treinos;
    }

    /** `onBindViewHolder`: the two texts of the item at `position`. */
    method Bind(position: nat) returns (title: string, details: string)
      requires position < |treinos|
      ensures title == Title(treinos[position]) && details == Summary(treinos[position])
    {
      var t := treinos[position];
      title := Title(t);
      details := Summary(t);
    }
  }
}
