/**
 * One answer to one console prompt, as `utils.py` treats it: the validated-input step
 * (`obter_input_validado` without its retry loop), the `S`/`N` confirmation, and the
 * `DD/MM/YYYY`-or-`N/A` rendering of an optional date.
 */
module Prompts {
  import opened Common
  import opened Dates
  import opened Text

  /** What one typed line leads to: a value, `None` for a skipped optional field, or a re-prompt. */
  datatype Step<T> = Accept(value: T) | Blank | Retry

  /**
   * One pass of the validated-input loop. `parse` converts the stripped text to the field's
   * type (`int`, `float`, the date pattern, or the text itself) and refuses what would raise
   * `ValueError`; `extra` is `validacao_extra` (pass `_ => true` when there is none);
   * `default` is `valor_padrao`, the value kept when the user types nothing.
   */
  function Decide<T>(raw: string, parse: string -> Option<T>, extra: T -> bool,
                     required: bool, default: Option<T>): (r: Step<T>)
    // nothing typed: the default wins over optionality, and a required field asks again
    ensures AllSpace(raw) && default.Some? ==> r == Accept(default.value)
    ensures r.Blank? <==> AllSpace(raw) && default.None? && !required
    ensures AllSpace(raw) && default.None? && required ==> r.Retry?
    // something typed: accepted exactly when it parses and passes the extra check
    ensures !AllSpace(raw) ==>
              (r.Accept? <==> parse(Strip(raw)).Some? && extra(parse(Strip(raw)).value))
    ensures !AllSpace(raw) && r.Accept? ==> parse(Strip(raw)) == Some(r.value)
    // a value failing the extra check only ever comes back as the untouched default
    ensures r.Accept? && !extra(r.value) ==> AllSpace(raw) && default == Some(r.value)
  {
    var text := Strip(raw);
    if text == [] then
      if default.Some? then Accept(default.value)
      else if !required then Blank
      else Retry
    else
      match parse(text)
      case None => Retry
      case Some(v) => if extra(v) then Accept(v) else Retry
  }

  /** A prompt for a required date with no default accepts exactly the spellings of that date. */
  lemma DateAnswer(raw: string, d: Date)
    ensures Decide(raw, ParseBr, _ => true, true, None) == Accept(d)
        <==> Strip(raw) in Spellings(d)
  {
    ParseBrSpellings(Strip(raw), d);
    if Strip(raw) in Spellings(d) {
      assert !AllSpace(raw);
    }
  }

  /** A required text prompt without default returns the typed text, stripped and non-empty. */
  lemma TextAnswer(raw: string, v: string)
    ensures Decide(raw, s => Some(s), _ => true, true, None) == Accept(v)
        <==> v == Strip(raw) && v != []
  {
  }

  /**
   * `confirmar_acao` for one typed line: `Some(true)` for an answer whose stripped upper case
   * is `S`, `Some(false)` for `N`, `None` where the source asks again.
   */
  function Confirm(raw: string): (r: Option<bool>)
    ensures r == Some(true) <==> Strip(raw) in {"S", "s", "\U{017F}"}
    ensures r == Some(false) <==> Strip(raw) in {"N", "n"}
    ensures r == None <==> Strip(raw) !in {"S", "s", "\U{017F}", "N", "n"}
  {
    var answer := UpperText(Strip(raw));
    UpperIsS(Strip(raw));
    UpperIsN(Strip(raw));
    if answer == "S" then Some(true)
    else if answer == "N" then Some(false)
    else None
  }

  lemma UpperIsS(t: string)
    ensures UpperText(t) == "S" <==> t in {"S", "s", "\U{017F}"}
  {
    if UpperText(t) == "S" {
      UpperSingle(t, 'S');
      assert t == [t[0]];
    } else {
      assert UpperText("S") == "S" && UpperText("s") == "S" && UpperText("\U{017F}") == "S";
    }
  }

  lemma UpperIsN(t: string)
    ensures UpperText(t) == "N" <==> t in {"N", "n"}
  {
    if UpperText(t) == "N" {
      UpperSingle(t, 'N');
      assert t == [t[0]];
    } else {
      assert UpperText("N") == "N" && UpperText("n") == "N";
    }
  }

  /** `formatar_data_br`: the `DD/MM/YYYY` text of a date, `N/A` for a missing one. */
  function FormatOrNA(d: Option<Date>): (r: string)
    ensures r == "N/A" <==> d.None?
    ensures d.Some? && d.value.year >= 1000 ==> ParseBr(r) == d
    ensures d.Some? && d.value.year < 1000 ==> ParseBr(r) == None
  {
    match d
    case None => "N/A"
    case Some(x) =>
      FormatParses(x);
      FormatBr(x)
  }

  lemma FormatParses(x: Date)
    ensures FormatBr(x) != "N/A"
    ensures x.year >= 1000 ==> ParseBr(FormatBr(x)) == Some(x)
    ensures x.year < 1000 ==> ParseBr(FormatBr(x)) == None
  {
    assert FormatBr(x)[2] == '/';
    if x.year >= 1000 {
      FormatParseRoundTrip(x);
    } else {
      ShortYearNotReparsed(x);
    }
  }
}
