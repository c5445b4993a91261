/** The game's fixed configuration (src/main.js): the size of the play field in pixels. */
module Config {
  const GAME_WIDTH: int := 480
  const GAME_HEIGHT: int := 640
}
