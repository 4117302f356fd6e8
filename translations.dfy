/**
  The three language packs of the timesheet generator and the rule that picks
  one from a language code (generate_timesheet.py, lines 80-159).
 */
module Translations {
  /** One language's labels. `months` is indexed 1..12 with an empty entry 0;
      `weekdays` maps the weekday numbers 0 (Monday) .. 4 (Friday). */
  datatype LanguagePack = LanguagePack(
    title: string,
    name: string,
    monthYear: string,
    date: string,
    day: string,
    entryTime: string,
    exitTime: string,
    totalHours: string,
    balance: string,
    total: string,
    employeeSignature: string,
    supervisorSignature: string,
    months: seq<string>,
    weekdays: map<int, string>)

  const Spanish: LanguagePack := LanguagePack(
    "HOJA DE CONTROL DE ASISTENCIA",
    "Nombre:",
    "Mes/Año:",
    "Fecha",
    "Día",
    "Hora Entrada",
    "Hora Salida",
    "Total Horas",
    "Saldo",
    "TOTAL",
    "Firma del Empleado",
    "Firma del Responsable",
    ["", "Enero", "Febrero", "Marzo", "Abril", "Mayo", "Junio",
     "Julio", "Agosto", "Septiembre", "Octubre", "Noviembre", "Diciembre"],
    map[0 := "Lunes", 1 := "Martes", 2 := "Miérc.", 3 := "Jueves", 4 := "Viernes"])

  const Portuguese: LanguagePack := LanguagePack(
    "FOLHA DE PONTO",
    "Nome:",
    "Mês/Ano:",
    "Data",
    "Dia",
    "Hora Entrada",
    "Hora Saída",
    "Total Horas",
    "Saldo",
    "TOTAL",
    "Assinatura do Funcionário",
    "Assinatura do Responsável",
    ["", "Janeiro", "Fevereiro", "Março", "Abril", "Maio", "Junho",
     "Julho", "Agosto", "Setembro", "Outubro", "Novembro", "Dezembro"],
    map[0 := "Segunda", 1 := "Terça", 2 := "Quarta", 3 := "Quinta", 4 := "Sexta"])

  const English: LanguagePack := LanguagePack(
    "ATTENDANCE CONTROL SHEET",
    "Name:",
    "Month/Year:",
    "Date",
    "Day",
    "Entry Time",
    "Exit Time",
    "Total Hours",
    "Balance",
    "TOTAL",
    "Employee Signature",
    "Supervisor Signature",
    ["", "January", "February", "March", "April", "May", "June",
     "July", "August", "September", "October", "November", "December"],
    map[0 := "Monday", 1 := "Tuesday", 2 := "Wednesday", 3 := "Thursday", 4 := "Friday"])

  /** The `translations` dictionary, keyed by language code. */
  const Packs: map<string, LanguagePack> := map["es" := Spanish, "pt" := Portuguese, "en" := English]

  /** What the row builder relies on when it looks labels up: thirteen month
      entries (index 0 unused and empty) and a name for every weekday number 0..4. */
  predicate WellFormed(t: LanguagePack) {
    && |t.months| == 13
    && t.months[0] == ""
    && (forall w :: 0 <= w <= 4 ==> w in t.weekdays)
  }

  /** `translations.get(language, translations["es"])`. */
  function SelectPack(language: string): (t: LanguagePack)
    ensures WellFormed(t)
    ensures language !in {"es", "pt", "en"} ==> t == Spanish
    ensures language == "es" ==> t == Spanish
    ensures language == "pt" ==> t == Portuguese
    ensures language == "en" ==> t == English
  {
    PacksWellFormed();
    if language in Packs then Packs[language] else Packs["es"]
  }

  /** Every pack defines every label the row builder looks up. */
  lemma PacksWellFormed()
    ensures forall code :: code in Packs ==> WellFormed(Packs[code])
  {
    assert WellFormed(Spanish);
    assert WellFormed(Portuguese);
    assert WellFormed(English);
  }
}
