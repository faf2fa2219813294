/** The bot's tuning constants. */
module Constants {
  /** Admissions allowed per sender within one window. */
  const MAX_REQUESTS: nat := 6
  /** Length of the rate-limit window, in milliseconds. */
  const TIME_WINDOW: nat := 60000
  /** Entries kept in a room's conversation history by the modular bot. */
  const MAX_HISTORY: nat := 20
  /** Entries kept per sender by the legacy single-file bot. */
  const LEGACY_MAX_HISTORY: nat := 10
  const DEFAULT_VOICE: string := "henry"
  const DEFAULT_RESULTS: nat := 3
  const MAX_RESULTS: nat := 10
}
