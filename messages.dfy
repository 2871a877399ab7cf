/**
 * The error strings the application shows, as a datatype with a render
 * function, and the classification of a failed analysis call by the text of
 * its error message.
 */
module Messages {
  import opened Text

  /** Every error the analysis handler can show. */
  datatype Message =
    | MissingApiKey                  // no API key entered (pre-flight)
    | NoTasks                        // every task row is blank (pre-flight)
    | InvalidApiKey                  // the provider rejected the key
    | ModelNotFound(model: string)   // the provider does not know the requested model
    | AnalysisFailed(detail: string) // anything else, with the original error text

  /** The fixed opening of the catch-all message. */
  const FailurePrefix: string := "分析エラーが発生しました。"

  /** The text shown in the error banner. */
  function Render(m: Message): string {
    match m
    case MissingApiKey => "Gemini APIキーを入力してください。"
    case NoTasks => "タスクを少なくとも1つ入力してください。"
    case InvalidApiKey => "APIキーが無効です。"
    case ModelNotFound(model) => "モデル (" + model + ") が見つかりません。"
    case AnalysisFailed(detail) => FailurePrefix + " (" + detail + ")"
  }

  /** The banner text determines the error: no two errors look alike. */
  lemma RenderInjective(a: Message, b: Message)
    requires Render(a) == Render(b)
    ensures a == b
  {
    var s := Render(a);
    assert s[0] == Render(b)[0];
    match a
    case ModelNotFound(x) =>
      if b.ModelNotFound? {
        assert s == "モデル (" + b.model + ") が見つかりません。";
        assert |x| == |b.model|;
        assert x == s[5..5 + |x|] == b.model;
      }
    case AnalysisFailed(x) =>
      if b.AnalysisFailed? {
        assert s == FailurePrefix + " (" + b.detail + ")";
        assert |x| == |b.detail|;
        assert x == s[15..15 + |x|] == b.detail;
      }
    case _ =>
  }

  /**
   * The message for a failed analysis call: the invalid-key message when the
   * error text mentions "API key", else the model-not-found message when it
   * mentions "404", else the catch-all message carrying the error text.
   */
  function Classify(model: string, errorText: string): (m: Message)
    ensures m == InvalidApiKey <==> Occurs(errorText, "API key")
    ensures m == ModelNotFound(model) <==> !Occurs(errorText, "API key") && Occurs(errorText, "404")
    ensures m == AnalysisFailed(errorText) <==> !Occurs(errorText, "API key") && !Occurs(errorText, "404")
    ensures m.InvalidApiKey? || m.ModelNotFound? || m.AnalysisFailed?
  {
    ContainsIffOccurs(errorText, "API key");
    ContainsIffOccurs(errorText, "404");
    if Contains(errorText, "API key") then InvalidApiKey
    else if Contains(errorText, "404") then ModelNotFound(model)
    else AnalysisFailed(errorText)
  }

  /** The three banner texts a failed call can end in. */
  lemma ClassifyRendered(model: string, errorText: string)
    ensures Occurs(errorText, "API key") ==> Render(Classify(model, errorText)) == "APIキーが無効です。"
    ensures !Occurs(errorText, "API key") && Occurs(errorText, "404") ==>
      Render(Classify(model, errorText)) == "モデル (" + model + ") が見つかりません。"
    ensures !Occurs(errorText, "API key") && !Occurs(errorText, "404") ==>
      Render(Classify(model, errorText)) == FailurePrefix + " (" + errorText + ")"
  {
  }

  /** An error text that mentions both "API key" and "404" is reported as an invalid key. */
  lemma KeyTakesPriority(model: string, errorText: string)
    requires Occurs(errorText, "API key") && Occurs(errorText, "404")
    ensures Classify(model, errorText) == InvalidApiKey
    ensures Classify(model, errorText) != ModelNotFound(model)
  {
  }
}
