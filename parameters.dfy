/** The parameter shapes `unused_argument` and `function_argument_name` both
    read: a plain identifier, or a typed, defaulted or typed-and-defaulted
    parameter whose first child is the name. */
module Parameters {
  import opened Common
  import opened Syntax

  predicate IsParameter(p: Node) {
    p.kind == "identifier" || p.kind == "typed_parameter"
    || p.kind == "default_parameter" || p.kind == "typed_default_parameter"
  }

  /** The identifier's own text, or the text of `child(0)`, or "" when the
      parameter has no child. */
  function ParameterName(p: Node): (name: string)
    ensures p.kind == "identifier" ==> name == p.text
    ensures p.kind != "identifier" && p.children != [] ==> name == p.children[0].text
    ensures p.kind != "identifier" && p.children == [] ==> name == ""
  {
    if p.kind == "identifier" then p.text
    else match FirstChild(p)
      case Some(c) => c.text
      case None => ""
  }
}
