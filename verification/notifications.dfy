/** The workout detail screen (ui/notifications/NotificationsFragment.kt): it
    rebuilds the tapped workout from the navigation arguments, shows it with
    defaults for missing values, and deletes it on request. */
module Notifications {
  import opened Wrappers
  import opened KotlinText
  import opened Records
  import opened Bundles
  import opened Store
  import opened Adapter

  /** The workout rebuilt from the navigation arguments: each string
      property is the argument of its name (null when absent), and series
      and repetitions are the int arguments, 0 when absent. */
  function DecodeArgs(b: Bundle): (t: Treino)
    ensures t.key == GetString(b, "treinoKey") && t.userId == GetString(b, "userId")
    ensures t.nomeTreino == GetString(b, "nomeTreino") && t.exercicios == GetString(b, "exercicios")
    ensures t.observacoes == GetString(b, "observacoes")
    ensures "series" in b && b["series"].IntArg? ==> t.series == Some(b["series"].i)
    ensures "series" !in b || b["series"].StringArg? ==> t.series == Some(0)
    ensures "repeticoes" in b && b["repeticoes"].IntArg? ==> t.repeticoes == Some(b["repeticoes"].i)
    ensures "repeticoes" !in b || b["repeticoes"].StringArg? ==> t.repeticoes == Some(0)
  {
    Treino(
      key := GetString(b, "treinoKey"),
      userId := GetString(b, "userId"),
      nomeTreino := GetString(b, "nomeTreino"),
      exercicios := GetString(b, "exercicios"),
      series := Some(GetInt(b, "series", 0)),
      repeticoes := Some(GetInt(b, "repeticoes", 0)),
      observacoes := GetString(b, "observacoes"))
  }

  /** Encoding in the list and decoding here gives back the workout, except
      that a null series or repetition count arrives as 0. */
  lemma ArgsRoundTrip(t: Treino)
    ensures DecodeArgs(EncodeArgs(t))
         == t.(series := Some(t.series.GetOr(0)), repeticoes := Some(t.repeticoes.GetOr(0)))
  {
  }

  /** A workout with both counts present makes the trip unchanged. */
  lemma ArgsRoundTripExact(t: Treino)
    requires t.series.Some? && t.repeticoes.Some?
    ensures DecodeArgs(EncodeArgs(t)) == t
  {
    ArgsRoundTrip(t);
  }

  /** What `exibirDetalhes` puts on screen. `notes` is `None` when the notes
      text and its label are hidden. */
  datatype DetailsView = DetailsView(
    title: string, series: string, repeticoes: string, exercicios: string,
    notesVisible: bool, notes: Option<string>)

  /** `exibirDetalhes`: "Sem nome", "0" and "Nenhum exercício" stand in for
      null values; the notes show only when present and non-empty. */
  function Details(t: Treino): (v: DetailsView)
    ensures v.title == t.nomeTreino.GetOr("Sem nome")
    ensures v.exercicios == t.exercicios.GetOr("Nenhum exercício")
    ensures v.notesVisible <==> t.observacoes.Some? && t.observacoes.value != ""
    ensures v.notesVisible ==> v.notes == t.observacoes
    ensures !v.notesVisible ==> v.notes == None
  {
    var visible := t.observacoes.Some? && t.observacoes.value != "";
    DetailsView(
      t.nomeTreino.GetOr("Sem nome"),
      if t.series.Some? then IntToString(t.series.value) else "0",
      if t.repeticoes.Some? then IntToString(t.repeticoes.value) else "0",
      t.exercicios.GetOr("Nenhum exercício"),
      visible,
      if visible then t.observacoes else None)
  }

  /** A count is shown as the decimal of its value, or "0" when it is null;
      so a null count and a count of 0 look the same. */
  lemma DetailsCounts(t: Treino)
    ensures Details(t).series == IntToString(t.series.GetOr(0))
    ensures Details(t).repeticoes == IntToString(t.repeticoes.GetOr(0))
  {
    assert IntToString(0) == "0";
  }

  /** The detail screen shows a tapped workout exactly as it would show the
      workout itself: the 0 that replaces a null count displays as "0" too. */
  lemma DetailsSurviveNavigation(t: Treino)
    ensures Details(DecodeArgs(EncodeArgs(t))) == Details(t)
  {
    ArgsRoundTrip(t);
    DetailsCounts(t);
    DetailsCounts(DecodeArgs(EncodeArgs(t)));
  }

  /** How a delete request ends. */
  datatype DeleteOutcome = InvalidWorkout | Deleted | DeleteFailed

  /** The detail screen's state: the workout it shows. */
  class DetailsScreen {
    var treinoAtual: Option<Treino>

    constructor ()
      ensures treinoAtual == None
    {
      treinoAtual := None;
    }

    /** `receberTreino`: with arguments, the workout is rebuilt from them;
        without, nothing changes. */
    method ReceberTreino(arguments: Option<Bundle>)
      modifies this
      ensures treinoAtual == if arguments.Some? then Some(DecodeArgs(arguments.value)) else old(treinoAtual)
    {
      if arguments.Some? {
        treinoAtual := Some(DecodeArgs(arguments.value));
      }
    }

    /** `exibirDetalhes`: nothing is shown without a workout. */
    function ExibirDetalhes(): (v: Option<DetailsView>)
      reads this
      ensures v.Some? <==> treinoAtual.Some?
      ensures v.Some? ==> v.value == Details(treinoAtual.value)
    {
      if treinoAtual.Some? then Some(Details(treinoAtual.value)) else None
    }

    /** `excluirTreino`: refused, with no store call, when there is no
        workout or it has no key; otherwise one `removeValue`. */
    method ExcluirTreino(store: WorkoutStore, deleteOk: bool) returns (outcome: DeleteOutcome)
      modifies store
      ensures treinoAtual.None? || treinoAtual.value.key.None? ==>
                outcome == InvalidWorkout && store.treinos == old(store.treinos)
      ensures treinoAtual.Some? && treinoAtual.value.key.Some? ==>
                && outcome == (if deleteOk then Deleted else DeleteFailed)
                && store.treinos == if deleteOk then old(store.treinos) - {treinoAtual.value.key.value}
                                    else old(store.treinos)
    {
      var treino := treinoAtual;
      if treino.None? || treino.value.key.None? {
        return InvalidWorkout;
      }
      store.RemoveValue(treino.value.key.value, deleteOk);
      outcome := if deleteOk then Deleted else DeleteFailed;
    }
  }
}
