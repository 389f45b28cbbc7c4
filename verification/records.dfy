/**
 * The rows the application reads from and writes to its hosted database:
 * job templates, assigned jobs, user profiles and punishments. Money is a
 * whole number of kroner; a field the code reads with `?.` or `|| 0` is an
 * `Option`.
 */
module Records {
  import opened Wrappers

  /** A job template (table `job`); the type spells the address field `adress`. */
  datatype Job = Job(
    id: Option<string>,
    title: string,
    description: string,
    adress: string,
    duration: int,
    delivery: Option<string>,   // "HH:mm:ss"
    money: nat,                 // full payout
    image_url: Option<string>)

  /** A job assigned to a user (table `user_jobs`), its fields copied from a template. */
  datatype UserJob = UserJob(
    id: Option<string>,
    user_id: string,
    job_id: string,
    title: string,
    description: string,
    address: string,
    duration: int,
    delivery: Option<string>,   // "HH:mm:ss"
    image_solved_url: Option<string>,
    money: nat,                 // full payout, fixed when assigned
    solved: bool,
    approved: bool,
    approved_time: Option<string>)

  /** A user profile (table `profiles`) with its running balance, which may be null. */
  datatype User = User(id: string, name: string, money: Option<int>)

  /** An instant, as the store's `created_at` timestamps. */
  type Instant = int

  /** A punishment row (table `punishment`). */
  datatype Punishment = Punishment(
    id: nat,
    user_id: string,
    amount: int,
    reason: string,
    created_at: Option<Instant>)

  /** `user.money || 0`: a null balance reads as 0. */
  function Balance(u: User): int
  {
    u.money.GetOr(0)
  }
}
