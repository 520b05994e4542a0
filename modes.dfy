/** The cursor modes of the editor. The two editors of the repository name different subsets
    of them (src/app.rs declares four; src/gui.rs also uses Trim; src/bezier.rs and
    src/point.rs also use Trim and Insert); this is their union. */
module CursorModes {

  datatype CursorMode = Default | Create | Edit | Delete | Trim | Insert
}
