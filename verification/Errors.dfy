/** Error numbers of 3rd/libuv/include/uv-errno.h as they are on Linux. */
module Errors {
  const UV_EINVAL: int := -22
  const UV_ENOSPC: int := -28
}
