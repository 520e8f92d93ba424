/** Creating a workout (ui/dashboard/DashboardFragment.kt, `salvarTreino`):
    the five inputs are trimmed, checked one after another, and only a
    workout that passes every check is written, under a freshly generated
    key and owned by the signed-in user. */
module Dashboard {
  import opened Wrappers
  import opened KotlinText
  import opened Records
  import opened Store
  import opened Adapter
  import opened Notifications

  /** The five text inputs, as typed. */
  datatype WorkoutForm = WorkoutForm(
    nomeTreino: string, exercicios: string, series: string, repeticoes: string, observacoes: string)

  /** The check that stopped the save, in the order the checks run. */
  datatype WorkoutError =
    | NameMissing
    | ExercisesMissing
    | SeriesMissing
    | RepetitionsMissing
    | InvalidSeries
    | InvalidRepetitions
    | NotLoggedIn
    | KeyNotGenerated

  /** The text parses as an `Int` and the value is positive. */
  predicate IsPositiveInt(s: string) {
    ToIntOrNull(s).Some? && ToIntOrNull(s).value > 0
  }

  /** The guard chain of `salvarTreino` and the workout it builds. `user` is
      the signed-in uid, `newKey` what `push().key` returns. */
  function BuildTreino(form: WorkoutForm, user: Option<string>, newKey: Option<string>)
    : (r: Result<Treino, WorkoutError>)
    // the first failing check decides the error
    ensures r == Err(NameMissing) <==> Trim(form.nomeTreino) == []
    ensures r == Err(ExercisesMissing) <==> Trim(form.nomeTreino) != [] && Trim(form.exercicios) == []
    ensures r == Err(SeriesMissing) <==>
      Trim(form.nomeTreino) != [] && Trim(form.exercicios) != [] && Trim(form.series) == []
    ensures r == Err(RepetitionsMissing) <==>
      && Trim(form.nomeTreino) != [] && Trim(form.exercicios) != [] && Trim(form.series) != []
      && Trim(form.repeticoes) == []
    ensures r == Err(InvalidSeries) <==>
      && Trim(form.nomeTreino) != [] && Trim(form.exercicios) != [] && Trim(form.series) != []
      && Trim(form.repeticoes) != [] && !IsPositiveInt(Trim(form.series))
    ensures r == Err(InvalidRepetitions) <==>
      && Trim(form.nomeTreino) != [] && Trim(form.exercicios) != []
      && IsPositiveInt(Trim(form.series)) && Trim(form.repeticoes) != []
      && !IsPositiveInt(Trim(form.repeticoes))
    ensures r == Err(NotLoggedIn) <==>
      && Trim(form.nomeTreino) != [] && Trim(form.exercicios) != []
      && IsPositiveInt(Trim(form.series)) && IsPositiveInt(Trim(form.repeticoes))
      && user.None?
    ensures r == Err(KeyNotGenerated) <==>
      && Trim(form.nomeTreino) != [] && Trim(form.exercicios) != []
      && IsPositiveInt(Trim(form.series)) && IsPositiveInt(Trim(form.repeticoes))
      && user.Some? && newKey.None?
    // a workout is built exactly when every check passes
    ensures r.Ok? <==>
      && Trim(form.nomeTreino) != [] && Trim(form.exercicios) != []
      && IsPositiveInt(Trim(form.series)) && IsPositiveInt(Trim(form.repeticoes))
      && user.Some? && newKey.Some?
    // and it is owned by the user, under the new key, with positive counts
    ensures r.Ok? ==>
      && r.value.key == newKey && r.value.userId == user
      && r.value.nomeTreino == Some(Trim(form.nomeTreino))
      && r.value.exercicios == Some(Trim(form.exercicios))
      && r.value.observacoes == Some(Trim(form.observacoes))
      && r.value.series == ToIntOrNull(Trim(form.series))
      && r.value.repeticoes == ToIntOrNull(Trim(form.repeticoes))
      && r.value.series.Some? && 0 < r.value.series.value <= IntMax
      && r.value.repeticoes.Some? && 0 < r.value.repeticoes.value <= IntMax
  {
    var nome := Trim(form.nomeTreino);
    var exercicios := Trim(form.exercicios);
    var seriesText := Trim(form.series);
    var repeticoesText := Trim(form.repeticoes);
    var observacoes := Trim(form.observacoes);
    if nome == [] then Err(NameMissing)
    else if exercicios == [] then Err(ExercisesMissing)
    else if seriesText == [] then Err(SeriesMissing)
    else if repeticoesText == [] then Err(RepetitionsMissing)
    else
      var series := ToIntOrNull(seriesText);
      var repeticoes := ToIntOrNull(repeticoesText);
      if series.None? || series.value <= 0 then Err(InvalidSeries)
      else if repeticoes.None? || repeticoes.value <= 0 then Err(InvalidRepetitions)
      else if user.None? then Err(NotLoggedIn)
      else if newKey.None? then Err(KeyNotGenerated)
      else Ok(Treino(newKey, user, Some(nome), Some(exercicios), series, repeticoes, Some(observacoes)))
  }

  /** How `salvarTreino` ends. */
  datatype SaveOutcome = Rejected(error: WorkoutError) | Created(treino: Treino) | WriteFailed

  /** `salvarTreino`: nothing is written unless every check passes; then the
      workout is written under its new key. */
  method SalvarTreino(store: WorkoutStore, form: WorkoutForm, user: Option<string>,
                      newKey: Option<string>, writeOk: bool)
    returns (outcome: SaveOutcome)
    modifies store
    ensures BuildTreino(form, user, newKey).Err? ==>
      outcome == Rejected(BuildTreino(form, user, newKey).error) && store.treinos == old(store.treinos)
    ensures BuildTreino(form, user, newKey).Ok? ==>
      var t := BuildTreino(form, user, newKey).value;
      && outcome == (if writeOk then Created(t) else WriteFailed)
      && store.treinos == if writeOk then old(store.treinos)[newKey.value := t] else old(store.treinos)
  {
    var r := BuildTreino(form, user, newKey);
    if r.Err? {
      return Rejected(r.error);
    }
    store.SetValue(newKey.value, r.value, writeOk);
    outcome := if writeOk then Created(r.value) else WriteFailed;
  }

  /** Non-numeric text, zero and negative values are all rejected as series. */
  lemma SeriesMustBePositive()
    ensures !IsPositiveInt("abc") && !IsPositiveInt("0") && !IsPositiveInt("-3")
    ensures IsPositiveInt("+4") && ToIntOrNull("12") == Some(12)
  {
    ToIntOrNullRejectsNonDigit("abc", 0);
    assert "-3"[1..] == "3";
    assert "+4"[1..] == "4";
    assert "12"[..1] == "1";
  }

  /** A series text holding a character that is neither a digit nor a
      leading sign is rejected with the series error before anything is
      written, whatever the user and the key. */
  lemma NonNumericSeriesRejected(form: WorkoutForm, user: Option<string>, newKey: Option<string>, k: nat)
    requires Trim(form.nomeTreino) != [] && Trim(form.exercicios) != [] && Trim(form.repeticoes) != []
    requires k < |Trim(form.series)| && !IsDigit(Trim(form.series)[k])
    requires k > 0 || (Trim(form.series)[0] != '+' && Trim(form.series)[0] != '-')
    ensures BuildTreino(form, user, newKey) == Err(InvalidSeries)
  {
    ToIntOrNullRejectsNonDigit(Trim(form.series), k);
  }

  /** Notes are optional: blank notes pass and are stored as the empty string. */
  lemma BlankNotesAccepted(form: WorkoutForm, uid: string, key: string)
    requires Trim(form.nomeTreino) != [] && Trim(form.exercicios) != []
    requires IsPositiveInt(Trim(form.series)) && IsPositiveInt(Trim(form.repeticoes))
    requires AllWhitespace(form.observacoes)
    ensures BuildTreino(form, Some(uid), Some(key)).Ok?
    ensures BuildTreino(form, Some(uid), Some(key)).value.observacoes == Some("")
  {
  }

  /** Only the trimmed inputs matter: forms that agree after trimming are
      accepted or rejected alike and build the same workout. */
  lemma OnlyTrimmedInputsMatter(f1: WorkoutForm, f2: WorkoutForm, user: Option<string>, newKey: Option<string>)
    requires Trim(f1.nomeTreino) == Trim(f2.nomeTreino) && Trim(f1.exercicios) == Trim(f2.exercicios)
    requires Trim(f1.series) == Trim(f2.series) && Trim(f1.repeticoes) == Trim(f2.repeticoes)
    requires Trim(f1.observacoes) == Trim(f2.observacoes)
    ensures BuildTreino(f1, user, newKey) == BuildTreino(f2, user, newKey)
  {
  }

  /** A created workout has both counts, so tapping it in the list hands the
      detail screen exactly the workout that was written. */
  lemma CreatedWorkoutSurvivesNavigation(form: WorkoutForm, user: Option<string>, newKey: Option<string>)
    requires BuildTreino(form, user, newKey).Ok?
    ensures DecodeArgs(EncodeArgs(BuildTreino(form, user, newKey).value)) == BuildTreino(form, user, newKey).value
  {
    ArgsRoundTripExact(BuildTreino(form, user, newKey).value);
  }
}
