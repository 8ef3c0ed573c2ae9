/**
 The translation step of the home page: the text is sent once per target
 language to a translation provider, and a failure for one language is
 recorded as an error string for that language without stopping the others.
 The provider is a parameter: the network call is not part of the model.
 */
module Translation {

  /** What one provider call gives: the translated text, or the message of the exception it raised. */
  datatype Outcome = Translated(text: string) | Raised(message: string)

  /** A target language: the name shown to the user and the code sent to the provider. */
  datatype Language = Language(name: string, code: string)

  /** The target languages, in the order the dashboard lists them. */
  const Languages: seq<Language> := [
    Language("Hindi", "hi"), Language("Marathi", "mr"), Language("Gujarati", "gu"),
    Language("Tamil", "ta"), Language("Kannada", "kn"), Language("Telugu", "te"),
    Language("Bengali", "bn"), Language("Malayalam", "ml"), Language("Punjabi", "pa"),
    Language("Odia", "or")]

  /** No label occurs twice, as in the dictionary the languages come from. */
  predicate DistinctLabels(languages: seq<Language>) {
    forall i, j :: 0 <= i < j < |languages| ==> languages[i].name != languages[j].name
  }

  /** What is stored for one language: the text, or "Error: " followed by the message. */
  function Render(o: Outcome): string {
    match o
    case Translated(text) => text
    case Raised(message) => "Error: " + message
  }

  lemma LanguagesAreDistinct()
    ensures DistinctLabels(Languages) && |Languages| == 10
  {
  }

  /** `translate_text`: exactly one entry per requested label, holding that label's provider outcome. */
  method TranslateText(text: string, languages: seq<Language>, provider: (string, string) -> Outcome)
    returns (translations: map<string, string>)
    requires DistinctLabels(languages)
    ensures translations.Keys == set i | 0 <= i < |languages| :: languages[i].name
    ensures forall i :: 0 <= i < |languages| ==>
      translations[languages[i].name] == Render(provider(text, languages[i].code))
  {
    translations := map[];
    var i := 0;
    while i < |languages|
      invariant 0 <= i <= |languages|
      invariant translations.Keys == set j | 0 <= j < i :: languages[j].name
      invariant forall j :: 0 <= j < i ==>
        translations[languages[j].name] == Render(provider(text, languages[j].code))
    {
      var language := languages[i];
      translations := translations[language.name := Render(provider(text, language.code))];
      i := i + 1;
    }
  }
}
