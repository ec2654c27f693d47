/** The curses key codes the player and the browser react to, as ncurses
    defines them. */
module Keys {
  const KeyDown: int := 258
  const KeyUp: int := 259
  const KeyLeft: int := 260
  const KeyRight: int := 261
  const KeyBackspace: int := 263
  const KeyEnter: int := 343
}
