/** The error numbers the driver returns, as positive numbers. */
module Errno {
  const ENOMEM: int := 12
  const EINVAL: int := 22
}
