/** The closed set of terminal themes and their names as the user types them. */
module Themes {
  import opened Wrappers

  datatype Theme = Matrix | Ubuntu | Arch

  /** The name of a theme, as accepted by `theme <name>` and stored in the page. */
  function Name(t: Theme): string {
    match t
    case Matrix => "matrix"
    case Ubuntu => "ubuntu"
    case Arch => "arch"
  }

  /** Every name the `theme` command accepts. */
  const Names: set<string> := {"matrix", "ubuntu", "arch"}

  /** The theme a name selects: only the three names are accepted, each
      selects the theme it names, and nothing else (an empty token included)
      selects one. */
  function Parse(s: string): (r: Option<Theme>)
    ensures r.Some? <==> s in Names
    ensures r.Some? ==> Name(r.value) == s
  {
    if s == "matrix" then Some(Matrix)
    else if s == "ubuntu" then Some(Ubuntu)
    else if s == "arch" then Some(Arch)
    else None
  }

  /** Naming a theme and parsing the name gives the theme back. */
  lemma ParseName(t: Theme)
    ensures Parse(Name(t)) == Some(t)
    ensures Name(t) in Names
  {
  }
}
