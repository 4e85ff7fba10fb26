/** The verdicts on wire frames, and the last two checks: the clock and the memory of accepted ids. */
module Verdicts {
  import opened CanonicalJson

  const WINDOW_MS: int := 300_000
  const REPLAY_MEMORY_MS: int := 2 * WINDOW_MS

  /** In the order of the checks. */
  datatype RejectCode =
    | Malformed
    | UnsupportedVersion
    | NonCanonical
    | UnknownKey
    | BadSignature
    | WrongRecipient
    | Stale
    | Replay

  /** The fields the checks look at, and all fields as they were parsed. */
  datatype Envelope = Envelope(
    id: string, ts: int, from: string, to: string, kid: string, sig: string, fields: map<string, Json>
  )

  datatype Verdict = Accepted(env: Envelope) | Rejected(code: RejectCode)

  function SeenKey(env: Envelope): string {
    env.from + "/" + env.id
  }

  predicate InWindow(env: Envelope, now: int) {
    -WINDOW_MS <= now - env.ts <= WINDOW_MS
  }

  function Timed(screened: Verdict, now: int, seen: set<string>): Verdict {
    if screened.Rejected? then screened
    else if !InWindow(screened.env, now) then Rejected(Stale)
    else if SeenKey(screened.env) in seen then Rejected(Replay)
    else screened
  }

  // ---- The agent's memory ----------------------------------------------------------------------------------

  /** Accepted ids and when they were accepted, less those older than `memory`. */
  function Retained(seen: map<string, int>, now: int, memory: int): map<string, int> {
    map k | k in seen && now - seen[k] <= memory :: seen[k]
  }

  /** The agent prunes its memory just before it asks whether an id was seen. */
  predicate Asks(screened: Verdict, now: int) {
    screened.Accepted? && InWindow(screened.env, now)
  }

  function AgentVerdict(screened: Verdict, now: int, seen: map<string, int>, memory: int): Verdict {
    Timed(screened, now, Retained(seen, now, memory).Keys)
  }

  function AgentSeen(screened: Verdict, now: int, seen: map<string, int>, memory: int): map<string, int> {
    if !Asks(screened, now) then seen
    else if AgentVerdict(screened, now, seen, memory).Rejected? then Retained(seen, now, memory)
    else Retained(seen, now, memory)[SeenKey(screened.env) := now]
  }
}
