/** The document-type catalog of `getDescription` in main.go. */
module Catalog {

  /** The nine known document-type codes and their human-readable names.
      This table is the specification; the if-chain of `Description` below is
      the source's `switch`, checked against it. */
  const Descriptions: map<string, string> := map[
    "adm" := "GCS Advantage Modifiers Library",
    "adq" := "GCS Advantages Library",
    "eqm" := "GCS Equipment Modifiers Library",
    "eqp" := "GCS Equipment Library",
    "gcs" := "GURPS Character Sheet",
    "gct" := "GCS Character Template",
    "not" := "GCS Notes Library",
    "skl" := "GCS Skills Library",
    "spl" := "GCS Spells Library"
  ]

  /** The `switch` of `getDescription`: the catalog string for a known code,
      the code itself for any other input. */
  function Description(code: string): (r: string)
    ensures code in Descriptions ==> r == Descriptions[code]
    ensures code !in Descriptions ==> r == code
  {
    if code == "adm" then "GCS Advantage Modifiers Library"
    else if code == "adq" then "GCS Advantages Library"
    else if code == "eqm" then "GCS Equipment Modifiers Library"
    else if code == "eqp" then "GCS Equipment Library"
    else if code == "gcs" then "GURPS Character Sheet"
    else if code == "gct" then "GCS Character Template"
    else if code == "not" then "GCS Notes Library"
    else if code == "skl" then "GCS Skills Library"
    else if code == "spl" then "GCS Spells Library"
    else code
  }

  /** The catalog knows exactly these nine codes. */
  lemma CatalogCodes()
    ensures Descriptions.Keys == {"adm", "adq", "eqm", "eqp", "gcs", "gct", "not", "skl", "spl"}
  {
  }

  /** The fallback is recognisable: the description equals the code exactly
      when the code is not in the catalog. */
  lemma DescriptionIsCodeIffUnknown(code: string)
    ensures Description(code) == code <==> code !in Descriptions
  {
  }

  /** A description is a single line whenever the code is. */
  lemma DescriptionSingleLine(code: string)
    requires '\n' !in code
    ensures '\n' !in Description(code)
  {
    var d := Description(code);
    if d != code {
      assert code in Descriptions;
      assert d == "GCS Advantage Modifiers Library" || d == "GCS Advantages Library"
        || d == "GCS Equipment Modifiers Library" || d == "GCS Equipment Library"
        || d == "GURPS Character Sheet" || d == "GCS Character Template"
        || d == "GCS Notes Library" || d == "GCS Skills Library" || d == "GCS Spells Library";
    }
  }
}
