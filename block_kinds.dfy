/** The block types both revisions share (the numeric `BLOCK_*` and `CONTAINER_*`
    constants), and the `Option` that models a missing entry in the render table. */
module BlockKinds {

  datatype BlockKind =
    | Unknown          // 40, only in the older revision
    | ThematicBreak    // 41
    | AtxHeading       // 42
    | SetextHeading    // 43
    | IndentedCode     // 44
    | FencedCode       // 45
    | Html             // 46
    | LinkReference    // 47
    | Paragraph        // 48
    | BlankLine        // 49
    | Blockquote       // 51, only in the older revision
    | ListItem         // 52, only in the older revision
    | List             // 53, only in the older revision

  datatype Option<T> = None | Some(value: T)
}
