# Verifies every module of the project.
includes = ["**/*.dfy"]
