/** The naming conventions the rules test names against (`SNAKE_CASE`,
    `PRIVATE_SNAKE_CASE`, `PASCAL_CASE`, `CONSTANT_CASE`,
    `PRIVATE_CONSTANT_CASE`). They are regular expressions defined in
    `regex_patterns.rs`, which is not part of this model, so each one is a
    given predicate on names and every property proved holds whatever the
    expressions are. */
module Naming {

  datatype Conventions = Conventions(
    snakeCase: string -> bool,
    privateSnakeCase: string -> bool,
    pascalCase: string -> bool,
    constantCase: string -> bool,
    privateConstantCase: string -> bool)
}
