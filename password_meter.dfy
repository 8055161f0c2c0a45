/**
 * The password-strength meter shared in shape by client/src/pages/Security.tsx and
 * client/src/pages/ResetPassword.tsx: the score depends on the length only, with three
 * length thresholds that each page chooses.
 */
module PasswordMeter {
  datatype Strength = Strength(score: int, text: string)

  /** Empty: 0 and no label; then Weak, Fair, Good and Strong from the given lengths on. */
  function ByLength(n: nat, fairFrom: nat, goodFrom: nat, strongFrom: nat): (s: Strength)
    requires 0 < fairFrom <= goodFrom <= strongFrom
    ensures n == 0 <==> s == Strength(0, "")
    ensures 0 < n < fairFrom <==> s == Strength(25, "Weak")
    ensures fairFrom <= n < goodFrom <==> s == Strength(50, "Fair")
    ensures goodFrom <= n < strongFrom <==> s == Strength(75, "Good")
    ensures strongFrom <= n <==> s == Strength(100, "Strong")
  {
    if n == 0 then Strength(0, "")
    else if n < fairFrom then Strength(25, "Weak")
    else if n < goodFrom then Strength(50, "Fair")
    else if n < strongFrom then Strength(75, "Good")
    else Strength(100, "Strong")
  }

  /** A longer password never scores lower. */
  lemma ByLengthMonotone(m: nat, n: nat, fairFrom: nat, goodFrom: nat, strongFrom: nat)
    requires 0 < fairFrom <= goodFrom <= strongFrom
    requires m <= n
    ensures ByLength(m, fairFrom, goodFrom, strongFrom).score <= ByLength(n, fairFrom, goodFrom, strongFrom).score
  {
  }
}
