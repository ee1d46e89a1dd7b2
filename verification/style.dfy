/** The highlight colours: a fixed map from lower-cased label to an RGB triple. */
module Style {

  /** An RGB triple with components in [0, 1], as PyMuPDF's `set_colors` takes it. */
  datatype Colour = Colour(red: real, green: real, blue: real)

  /** The fallback colour for a label missing from the map. */
  const Yellow := Colour(1.0, 1.0, 0.0)

  /** The label colours configured by the application. */
  const LabelColors: map<string, Colour> := map[
    "termination" := Colour(1.0, 1.0, 0.0),
    "confidentiality" := Colour(1.0, 0.8, 0.5),
    "dispute_resolution" := Colour(0.8, 1.0, 1.0),
    "jurisdiction" := Colour(0.9, 0.9, 1.0)
  ]

  /** `colours.get(label, (1, 1, 0))`. */
  function ColourFor(colours: map<string, Colour>, name: string): Colour {
    if name in colours then colours[name] else Yellow
  }

  /** With the application's map, a highlight is yellow exactly for the
      label "termination" and for every label the map does not know: the two
      cases cannot be told apart by colour. */
  lemma YellowExactlyForTerminationOrUnknown(name: string)
    ensures ColourFor(LabelColors, name) == Yellow <==> name == "termination" || name !in LabelColors
  {
  }

  /** The colour of every label under the application's map: each of the
      four configured labels gets its own triple, and any other label the
      yellow fallback. */
  lemma LabelColourTable(name: string)
    ensures LabelColors.Keys == {"termination", "confidentiality", "dispute_resolution", "jurisdiction"}
    ensures name == "termination" ==> ColourFor(LabelColors, name) == Colour(1.0, 1.0, 0.0)
    ensures name == "confidentiality" ==> ColourFor(LabelColors, name) == Colour(1.0, 0.8, 0.5)
    ensures name == "dispute_resolution" ==> ColourFor(LabelColors, name) == Colour(0.8, 1.0, 1.0)
    ensures name == "jurisdiction" ==> ColourFor(LabelColors, name) == Colour(0.9, 0.9, 1.0)
    ensures name !in LabelColors.Keys ==> ColourFor(LabelColors, name) == Yellow
  {
  }
}
