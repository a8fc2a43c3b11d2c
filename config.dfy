/** The configuration constants the pipeline reads (their defaults, without environment overrides). */
module Config {

  /** Microphone sample rate in samples per second. */
  const SAMPLE_RATE: nat := 16000

  /** Duration of one transcription chunk in whole seconds. */
  const CHUNK_DURATION: nat := 2

  /** Samples per capture block: one chunk's worth. */
  const CHUNK_SIZE: nat := SAMPLE_RATE * CHUNK_DURATION

  /** Default number of neighbours a retrieval asks for. */
  const TOP_K_RETRIEVAL: nat := 3
}
